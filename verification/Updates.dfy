/** Handling a status update. */
module Updates {
  import opened Types
  import opened Store
  import opened Nodes

  /** The statuses after which the task is forgotten. */
  predicate Terminal(st: TaskStatus) {
    st.Failed? || st.Killed? || st.Lost? || st.Error? || st.Finished?
  }

  /** An update is acknowledged when it carries a UUID. */
  function Acknowledged(s: Sys, u: Update): Sys {
    match u.uuid
    case None => s
    case Some(uuid) => Emit(s, Acknowledge(u.task, uuid))
  }

  /** The task an update names, with its new state; the empty command when the store does not know it. */
  function TaskOf(s: Sys, u: Update): Command {
    var p := IndexOfId(s.tasks, u.task);
    (if p < |s.tasks| then s.tasks[p] else EMPTY).(state := Reported(u.status))
  }

  predicate Known(s: Sys, u: Update) { IndexOfId(s.tasks, u.task) < |s.tasks| && u.task != "" }

  /** Write a command under its key; the empty command's key is ":". */
  function Saved(s: Sys, t: Command): Sys {
    if t.name.None? then s.(anonymous := Some(t)) else s.(tasks := Put(s.tasks, t, 0))
  }

  function Forgotten(s: Sys, t: Command): Sys {
    if t.name.None? then s.(anonymous := None) else s.(tasks := Delete(s.tasks, t.name, t.id))
  }

  /** The nodes of a forgotten task go too: an agent's from Kubernetes and the cache, a server's from the cache. */
  function NodesForgotten(s: Sys, t: Command): (r: Sys)
    ensures OnlyNodes(s, r)
  {
    var node := NodeOf(s.cache, t.id);
    if t.name == Some(Server) then s.(cache := Without(s.cache, {node.name}))
    else if t.name == Some(Agent) then
      var s1 := NodeDeleted(s, node.name);
      s1.(cache := Without(s1.cache, {node.name}))
    else s
  }

  /** A task that runs: where it runs, and for a server the port it is reached at. */
  function Runs(s: Sys, t: Command, u: Update, mesosAgent: string, networks: nat): Sys {
    var s1 := if t.name == Some(Server) && |t.mappings| > 0 then s.(cfg := s.cfg.(serverPort := t.mappings[0])) else s;
    Saved(s1, t.(mesosAgent := mesosAgent, networks := networks, agent := u.agent))
  }

  /** What is done with the task an update names. */
  function Recorded(s: Sys, t: Command, u: Update, mesosAgent: string, networks: nat): Sys {
    if Terminal(u.status) then NodesForgotten(Forgotten(s, t), t)
    else if u.status.Running? then Runs(s, t, u, mesosAgent, networks)
    else Saved(s, t)
  }

  /** HandleUpdate; `mesosAgent` and `networks` are what Mesos answers about a running task. */
  function UpdateHandled(s: Sys, u: Update, mesosAgent: string, networks: nat): Sys {
    var t := TaskOf(s, u);
    var s1 := if t.id == "" && !u.status.Lost? then Emit(s, Kill(UpdateStep, u.task, u.agent)) else s;
    Acknowledged(Recorded(s1, t, u, mesosAgent, networks), u)
  }
}
