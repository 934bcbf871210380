/** Matching offers with commands, and answering an offers event. */
module Offers {
  import opened Types

  /** The first entry of a command's needs: enough of a scalar resource in one entry of the list. */
  ghost predicate HasScalar(rs: seq<Resource>, name: string, amount: real) {
    exists i :: 0 <= i < |rs| && rs[i].name == name && rs[i].scalar >= amount
  }

  predicate InRange(r: Range, port: nat) { U32(r.begin) <= port <= U32(r.end) }

  ghost predicate OffersPort(r: Resource, port: nat) {
    r.name == "ports" && exists k :: 0 <= k < |r.ranges| && InRange(r.ranges[k], port)
  }

  ghost predicate HasAnyPort(rs: seq<Resource>, ports: seq<nat>) {
    exists i, j :: 0 <= i < |rs| && 0 <= j < |ports| && OffersPort(rs[i], ports[j])
  }

  /** The test in closed form: processors, memory, and at least one (not every) mapped host port on offer. */
  ghost predicate Matches(rs: seq<Resource>, cmd: Command) {
    && HasScalar(rs, "mem", cmd.memory)
    && HasScalar(rs, "cpus", cmd.cpu)
    && HasAnyPort(rs, cmd.mappings)
  }

  /** The resource test as the source runs it: flags set in nested loops. */
  method IsRessourceMatched(rs: seq<Resource>, cmd: Command) returns (matched: bool)
    ensures matched <==> Matches(rs, cmd)
  {
    var mem, cpu, ports := false, false, false;
    for i := 0 to |rs|
      invariant mem <==> HasScalar(rs[..i], "mem", cmd.memory)
      invariant cpu <==> HasScalar(rs[..i], "cpus", cmd.cpu)
      invariant ports <==> HasAnyPort(rs[..i], cmd.mappings)
    {
      var v := rs[i];
      if v.name == "cpus" && v.scalar >= cmd.cpu {
        cpu := true;
        assert rs[..i + 1][i] == v;
      }
      if v.name == "mem" && v.scalar >= cmd.memory {
        mem := true;
        assert rs[..i + 1][i] == v;
      }
      var found := false;
      if |cmd.mappings| > 0 && v.name == "ports" {
        found := PortOffered(v, cmd.mappings);
      }
      ScalarSnoc(rs, i, "mem", cmd.memory);
      ScalarSnoc(rs, i, "cpus", cmd.cpu);
      PortSnoc(rs, i, cmd.mappings);
      ports := ports || found;
    }
    assert rs[..|rs|] == rs;
    return mem && cpu && ports;
  }

  /** The two inner loops: some mapped port lies in some range of a ports resource. */
  method PortOffered(v: Resource, mappings: seq<nat>) returns (found: bool)
    requires v.name == "ports"
    ensures found <==> exists j :: 0 <= j < |mappings| && OffersPort(v, mappings[j])
  {
    found := false;
    for j := 0 to |mappings|
      invariant found <==> exists m :: 0 <= m < j && OffersPort(v, mappings[m])
    {
      var hit := false;
      for k := 0 to |v.ranges|
        invariant !hit && forall m | 0 <= m < k :: !InRange(v.ranges[m], mappings[j])
      {
        if InRange(v.ranges[k], mappings[j]) {
          hit := true;
          break;
        }
      }
      found := found || hit;
    }
  }

  lemma ScalarSnoc(rs: seq<Resource>, i: nat, name: string, amount: real)
    requires i < |rs|
    ensures HasScalar(rs[..i + 1], name, amount)
       <==> HasScalar(rs[..i], name, amount) || (rs[i].name == name && rs[i].scalar >= amount)
  {
    assert forall j | 0 <= j < i :: rs[..i + 1][j] == rs[..i][j];
    assert rs[..i + 1][i] == rs[i];
  }

  lemma PortSnoc(rs: seq<Resource>, i: nat, ports: seq<nat>)
    requires i < |rs|
    ensures HasAnyPort(rs[..i + 1], ports)
       <==> HasAnyPort(rs[..i], ports) || exists j :: 0 <= j < |ports| && OffersPort(rs[i], ports[j])
  {
    assert forall j | 0 <= j < i :: rs[..i + 1][j] == rs[..i][j];
    assert rs[..i + 1][i] == rs[i];
  }

  /** A permutation of the resource list, or any other list with the same entries, matches the same commands. */
  lemma MatchIgnoresOrder(rs: seq<Resource>, rs': seq<Resource>, cmd: Command)
    requires forall r :: r in rs <==> r in rs'
    ensures Matches(rs, cmd) <==> Matches(rs', cmd)
  {
    MatchCarries(rs, rs', cmd);
    MatchCarries(rs', rs, cmd);
  }

  lemma MatchCarries(rs: seq<Resource>, rs': seq<Resource>, cmd: Command)
    requires forall r :: r in rs ==> r in rs'
    ensures Matches(rs, cmd) ==> Matches(rs', cmd)
  {
    if Matches(rs, cmd) {
      ScalarCarries(rs, rs', "mem", cmd.memory);
      ScalarCarries(rs, rs', "cpus", cmd.cpu);
      var i, j :| 0 <= i < |rs| && 0 <= j < |cmd.mappings| && OffersPort(rs[i], cmd.mappings[j]);
      assert rs[i] in rs';
      var k :| 0 <= k < |rs'| && rs'[k] == rs[i];
      assert OffersPort(rs'[k], cmd.mappings[j]);
    }
  }

  lemma ScalarCarries(rs: seq<Resource>, rs': seq<Resource>, name: string, amount: real)
    requires HasScalar(rs, name, amount) && forall r :: r in rs ==> r in rs'
    ensures HasScalar(rs', name, amount)
  {
    var i :| 0 <= i < |rs| && rs[i].name == name && rs[i].scalar >= amount;
    assert rs[i] in rs';
    var k :| 0 <= k < |rs'| && rs'[k] == rs[i];
  }

  /** The resources a launched task claims: its scalars and one single-port range per mapping. */
  function ClaimsOf(cmd: Command): seq<Resource> {
    [Resource("cpus", cmd.cpu, []), Resource("mem", cmd.memory, []), Resource("disk", cmd.disk, [])]
    + seq(|cmd.mappings|, i requires 0 <= i < |cmd.mappings| =>
            Resource("ports", 0.0, [Range(cmd.mappings[i], cmd.mappings[i])]))
  }

  function OfferIds(offers: seq<Offer>): seq<string> {
    seq(|offers|, i requires 0 <= i < |offers| => offers[i].id)
  }

  function IdsExcept(ids: seq<string>, clean: string): seq<string> {
    if |ids| == 0 then []
    else if ids[0] == clean then IdsExcept(ids[1..], clean)
    else [ids[0]] + IdsExcept(ids[1..], clean)
  }

  /** An offer may be taken for a command: it is on the required host, if one is required, and has the resources. */
  ghost predicate Suits(env: Settings, cmd: Command, offer: Offer) {
    && (cmd.name.Some? ==> env.hosts.Of(cmd.name.value) == "" || env.hosts.Of(cmd.name.value) == offer.hostname)
    && Matches(offer.resources, cmd)
  }

  /** The position of the first suitable offer, or the number of offers. */
  ghost function Pick(env: Settings, cmd: Command, offers: seq<Offer>): (p: nat)
    ensures p <= |offers|
    ensures p < |offers| ==> Suits(env, cmd, offers[p])
    ensures forall j | 0 <= j < p :: !Suits(env, cmd, offers[j])
  {
    if |offers| == 0 || Suits(env, cmd, offers[0]) then 0 else 1 + Pick(env, cmd, offers[1..])
  }

  /** What getOffer declines: all offers, or all but the one it picked. */
  ghost function Leftover(env: Settings, cmd: Command, offers: seq<Offer>): seq<string> {
    var p := Pick(env, cmd, offers);
    if p < |offers| && offers[p].hostname != "" then IdsExcept(OfferIds(offers), offers[p].id) else OfferIds(offers)
  }

  /** What HandleOffers leaves behind; `accepted` is Mesos's answer to an ACCEPT. */
  ghost function OffersHandled(env: Settings, s: Sys, offers: seq<Offer>, accepted: bool): (r: Sys)
    ensures |s.log| <= |r.log| && r == s.(queue := r.queue, log := r.log)
  {
    if |s.queue| == 0 then Emit(s, Decline(OfferIds(offers)))
    else
      var cmd, rest := s.queue[0], s.queue[1..];
      if cmd.id == "" || cmd.name.None? then s.(queue := rest)
      else
        var p := Pick(env, cmd, offers);
        var left := Decline(Leftover(env, cmd, offers));
        var s1 := Emit(s, left);
        if p == |offers| || offers[p].hostname == "" || offers[p].id == "" then s1.(queue := rest + [cmd])
        else
          var s2 := Emit(s1.(queue := rest), Accept(offers[p].id, cmd.id, ClaimsOf(cmd)));
          if accepted then Emit(s2, left) else s2
  }

  ghost predicate ProperOffers(offers: seq<Offer>) {
    && (forall i | 0 <= i < |offers| :: offers[i].id != "" && offers[i].hostname != "")
    && forall i, j | 0 <= i < j < |offers| :: offers[i].id != offers[j].id
  }

  lemma {:induction false} IdsExceptIn(ids: seq<string>, clean: string)
    ensures forall id :: id in IdsExcept(ids, clean) <==> id in ids && id != clean
  {
    if |ids| == 0 {
    } else {
      IdsExceptIn(ids[1..], clean);
      assert ids == [ids[0]] + ids[1..];
    }
  }

  /** The offers declined when `taken` is accepted: exactly the others. */
  ghost predicate AllBut(declined: seq<string>, offers: seq<Offer>, taken: nat)
    requires taken < |offers|
  {
    forall i | 0 <= i < |offers| :: offers[i].id in declined <==> i != taken
  }

  /** Offer and command conservation.  With proper offers and a valid command at the head of the queue: if no offer
      suits, all are declined and the command goes to the back of the queue; otherwise the first that suits is
      accepted for it, exactly the others are declined (twice), and the command has left the queue for good. */
  lemma OffersConserved(env: Settings, s: Sys, offers: seq<Offer>, accepted: bool)
    requires ProperOffers(offers)
    requires |s.queue| > 0 && s.queue[0].id != "" && s.queue[0].name.Some?
    ensures var cmd, p, s' := s.queue[0], Pick(env, s.queue[0], offers), OffersHandled(env, s, offers, accepted);
            if p == |offers| then
              s' == s.(queue := s.queue[1..] + [cmd], log := s.log + [Decline(OfferIds(offers))])
            else
              exists declined ::
                && AllBut(declined, offers, p)
                && s'.queue == s.queue[1..]
                && s'.log == s.log + [Decline(declined), Accept(offers[p].id, cmd.id, ClaimsOf(cmd))]
                                   + (if accepted then [Decline(declined)] else [])
  {
    var cmd := s.queue[0];
    var p := Pick(env, cmd, offers);
    if p < |offers| {
      var declined := Leftover(env, cmd, offers);
      IdsExceptIn(OfferIds(offers), offers[p].id);
      forall i | 0 <= i < |offers|
        ensures offers[i].id in declined <==> i != p
      {
        assert OfferIds(offers)[i] == offers[i].id;
      }
      assert AllBut(declined, offers, p);
    }
  }

  /** Mesos agreed to launch the task during the calls `calls`. */
  ghost predicate LaunchedBy(calls: seq<Call>, task: string, accepted: bool) {
    accepted && exists i :: 0 <= i < |calls| && calls[i].Accept? && calls[i].task == task
  }

  /** The command survives an offers event (it is back in the queue, or Mesos has agreed to launch it)
      exactly unless an offer suited it and the ACCEPT was refused. */
  lemma CommandSurvives(env: Settings, s: Sys, offers: seq<Offer>, accepted: bool)
    requires ProperOffers(offers)
    requires |s.queue| > 0 && s.queue[0].id != "" && s.queue[0].name.Some?
    ensures var cmd, s' := s.queue[0], OffersHandled(env, s, offers, accepted);
            s'.queue == s.queue[1..] + [cmd] || LaunchedBy(s'.log[|s.log|..], cmd.id, accepted)
            <==> accepted || Pick(env, cmd, offers) == |offers|
  {
    OffersConserved(env, s, offers, accepted);
    var cmd, s' := s.queue[0], OffersHandled(env, s, offers, accepted);
    var p := Pick(env, cmd, offers);
    if p < |offers| {
      assert s'.log[|s.log|..][1] == Accept(offers[p].id, cmd.id, ClaimsOf(cmd));
      assert |s'.queue| < |s.queue[1..] + [cmd]|;
    }
  }

  // ---------- Every offer is answered ----------

  /** An offer fits a command: it is on the host configured for the task's kind, if one is; some entry has the memory
      and some the processors; and some mapped port lies in some range on offer, in 32-bit arithmetic. */
  ghost predicate Fits(env: Settings, cmd: Command, offer: Offer) {
    var rs := offer.resources;
    && (cmd.name.None? || env.hosts.Of(cmd.name.value) in {"", offer.hostname})
    && (exists i :: 0 <= i < |rs| && rs[i].name == "mem" && cmd.memory <= rs[i].scalar)
    && (exists i :: 0 <= i < |rs| && rs[i].name == "cpus" && cmd.cpu <= rs[i].scalar)
    && exists i, j, k :: 0 <= i < |rs| && 0 <= j < |cmd.mappings| && 0 <= k < |rs[i].ranges| && rs[i].name == "ports"
                         && rs[i].ranges[k].begin % 0x1_0000_0000 <= cmd.mappings[j]
                         && cmd.mappings[j] <= rs[i].ranges[k].end % 0x1_0000_0000
  }

  lemma SuitsFits(env: Settings, cmd: Command, offer: Offer)
    ensures Suits(env, cmd, offer) <==> Fits(env, cmd, offer)
  {
    var rs := offer.resources;
    if HasAnyPort(rs, cmd.mappings) {
      var i, j :| 0 <= i < |rs| && 0 <= j < |cmd.mappings| && OffersPort(rs[i], cmd.mappings[j]);
      var k :| 0 <= k < |rs[i].ranges| && InRange(rs[i].ranges[k], cmd.mappings[j]);
      assert rs[i].ranges[k].begin % 0x1_0000_0000 <= cmd.mappings[j];
    }
    if Fits(env, cmd, offer) {
      var i, j, k :| 0 <= i < |rs| && 0 <= j < |cmd.mappings| && 0 <= k < |rs[i].ranges| && rs[i].name == "ports"
          && rs[i].ranges[k].begin % 0x1_0000_0000 <= cmd.mappings[j]
          && cmd.mappings[j] <= rs[i].ranges[k].end % 0x1_0000_0000;
      assert InRange(rs[i].ranges[k], cmd.mappings[j]);
      assert OffersPort(rs[i], cmd.mappings[j]);
    }
  }

  /** How much of a scalar resource a list of claims comes to. */
  function Claimed(claims: seq<Resource>, name: string): real {
    if |claims| == 0 then 0.0
    else
      var last := claims[|claims| - 1];
      Claimed(claims[..|claims| - 1], name) + (if last.name == name then last.scalar else 0.0)
  }

  /** A launch claims what the command needs of each scalar resource, one single-port range for each of its mappings,
      and nothing else. */
  ghost predicate ClaimsNeeds(claims: seq<Resource>, cmd: Command) {
    && Claimed(claims, "cpus") == cmd.cpu && Claimed(claims, "mem") == cmd.memory && Claimed(claims, "disk") == cmd.disk
    && (forall i | 0 <= i < |claims| :: claims[i].name in {"cpus", "mem", "disk", "ports"})
    && (forall i | 0 <= i < |claims| && claims[i].name != "ports" :: claims[i].ranges == [])
    && |claims| == 3 + |cmd.mappings|
    && forall i | 0 <= i < |cmd.mappings| ::
         claims[3 + i] == Resource("ports", 0.0, [Range(cmd.mappings[i], cmd.mappings[i])])
  }

  lemma LaunchClaims(cmd: Command)
    ensures ClaimsNeeds(ClaimsOf(cmd), cmd)
  {
    var claims := ClaimsOf(cmd);
    assert claims[..3 + |cmd.mappings|] == claims;
    forall name | name in {"cpus", "mem", "disk"} ensures Claimed(claims, name) == Claimed(claims[..3], name) {
      PortsClaimNothing(claims, |cmd.mappings|, name);
    }
    ThreeClaimed(claims[..3], "cpus");
    ThreeClaimed(claims[..3], "mem");
    ThreeClaimed(claims[..3], "disk");
    hide Claimed;
  }

  lemma ThreeClaimed(claims: seq<Resource>, name: string)
    requires |claims| == 3
    ensures Claimed(claims, name)
         == (if claims[0].name == name then claims[0].scalar else 0.0)
            + (if claims[1].name == name then claims[1].scalar else 0.0)
            + (if claims[2].name == name then claims[2].scalar else 0.0)
  {
    assert claims[..2][..1] == claims[..1] && claims[..1][..0] == [];
    assert Claimed(claims[..1], name) == if claims[0].name == name then claims[0].scalar else 0.0;
    assert Claimed(claims[..2], name)
        == Claimed(claims[..1], name) + if claims[1].name == name then claims[1].scalar else 0.0;
  }

  lemma {:induction false} PortsClaimNothing(claims: seq<Resource>, i: nat, name: string)
    requires 3 + i <= |claims| && forall j | 3 <= j < |claims| :: claims[j].name == "ports"
    requires name != "ports"
    ensures Claimed(claims[..3 + i], name) == Claimed(claims[..3], name)
  {
    if i == 0 {
    } else {
      PortsClaimNothing(claims, i - 1, name);
      assert claims[..3 + i][..3 + i - 1] == claims[..3 + i - 1];
    }
  }

  ghost predicate DeclinedIn(calls: seq<Call>, id: string) {
    exists c :: c in calls && c.Decline? && id in c.offers
  }

  ghost predicate AcceptedIn(calls: seq<Call>, id: string) {
    exists c :: c in calls && c.Accept? && c.offer == id
  }

  /** The position of the first offer that fits, or their number. */
  ghost predicate FirstFit(env: Settings, cmd: Command, offers: seq<Offer>, p: nat) {
    && p <= |offers| && (p < |offers| ==> Fits(env, cmd, offers[p]))
    && forall j | 0 <= j < p :: !Fits(env, cmd, offers[j])
  }

  /** How one event answers the offers for a command: the first that fits, if any, is accepted, for that command and
      what it needs, and each other one is declined. */
  ghost predicate AnsweredFor(env: Settings, cmd: Command, offers: seq<Offer>, calls: seq<Call>) {
    && (forall i | 0 <= i < |offers| :: AcceptedIn(calls, offers[i].id) <==> FirstFit(env, cmd, offers, i))
    && (forall i | 0 <= i < |offers| :: DeclinedIn(calls, offers[i].id) <==> !FirstFit(env, cmd, offers, i))
    && forall c | c in calls :: c.Decline? || (c.Accept? && c.task == cmd.id && ClaimsNeeds(c.claims, cmd))
  }

  ghost predicate AllDeclined(offers: seq<Offer>, calls: seq<Call>) {
    && (forall i | 0 <= i < |offers| :: DeclinedIn(calls, offers[i].id))
    && forall c | c in calls :: c.Decline?
  }

  /** Every offer is answered, whatever is queued: with nothing queued all offers are declined in one call; with a
      proper command at the head of the queue each offer is accepted or declined for it; only a malformed command,
      which is dropped, leaves the offers unanswered.  Nothing but the queue and the log changes. */
  lemma OffersAnswered(env: Settings, s: Sys, offers: seq<Offer>, accepted: bool)
    requires ProperOffers(offers)
    ensures var r := OffersHandled(env, s, offers, accepted);
            var calls := r.log[|s.log|..];
            && r == s.(queue := r.queue, log := s.log + calls)
            && if |s.queue| == 0 then |calls| == 1 && AllDeclined(offers, calls) && r.queue == []
               else if s.queue[0].id == "" || s.queue[0].name.None? then |calls| == 0 && r.queue == s.queue[1..]
               else AnsweredFor(env, s.queue[0], offers, calls)
  {
    OffersShape(env, s, offers, accepted);
    OneDecline(offers);
    hide OffersHandled, AllDeclined, AnsweredFor, FirstFit, OfferIds;
    var r := OffersHandled(env, s, offers, accepted);
    if |s.queue| == 0 {
      assert r.log[|s.log|..] == [Decline(OfferIds(offers))];
    } else if s.queue[0].id != "" && s.queue[0].name.Some? {
      HeadAnswered(env, s, offers, accepted);
    }
  }

  lemma OffersShape(env: Settings, s: Sys, offers: seq<Offer>, accepted: bool)
    ensures var r := OffersHandled(env, s, offers, accepted);
            && (|s.queue| == 0 ==> r.queue == [] && r.log == s.log + [Decline(OfferIds(offers))])
            && (|s.queue| > 0 && (s.queue[0].id == "" || s.queue[0].name.None?) ==>
                  r.queue == s.queue[1..] && r.log == s.log)
  {
    hide Pick, Leftover, ClaimsOf, OfferIds;
  }

  lemma HeadAnswered(env: Settings, s: Sys, offers: seq<Offer>, accepted: bool)
    requires ProperOffers(offers)
    requires |s.queue| > 0 && s.queue[0].id != "" && s.queue[0].name.Some?
    ensures s.log <= OffersHandled(env, s, offers, accepted).log
    ensures AnsweredFor(env, s.queue[0], offers, OffersHandled(env, s, offers, accepted).log[|s.log|..])
  {
    var cmd, p := s.queue[0], Pick(env, s.queue[0], offers);
    var log := OffersHandled(env, s, offers, accepted).log;
    var calls := log[|s.log|..];
    OffersConserved(env, s, offers, accepted);
    hide OffersHandled, Pick, Suits, ClaimsOf, OfferIds, ProperOffers, AnsweredFor;
    if p == |offers| {
      assert calls == [Decline(OfferIds(offers))];
      NoneAnswered(env, cmd, offers);
    } else {
      var accept := Accept(offers[p].id, cmd.id, ClaimsOf(cmd));
      var declined :| AllBut(declined, offers, p)
          && log == s.log + [Decline(declined), accept] + (if accepted then [Decline(declined)] else []);
      assert calls == [Decline(declined), accept] + (if accepted then [Decline(declined)] else []);
      OneAnswered(env, cmd, offers, declined, calls);
    }
  }

  lemma NoneAnswered(env: Settings, cmd: Command, offers: seq<Offer>)
    requires Pick(env, cmd, offers) == |offers|
    ensures AnsweredFor(env, cmd, offers, [Decline(OfferIds(offers))])
  {
    OneFits(env, cmd, offers);
    OneDecline(offers);
    hide FirstFit, ClaimsNeeds, OfferIds;
  }

  lemma OneAnswered(env: Settings, cmd: Command, offers: seq<Offer>, declined: seq<string>, calls: seq<Call>)
    requires ProperOffers(offers)
    requires var p := Pick(env, cmd, offers);
             && p < |offers| && AllBut(declined, offers, p)
             && var accept := Accept(offers[p].id, cmd.id, ClaimsOf(cmd));
                calls == [Decline(declined), accept] || calls == [Decline(declined), accept, Decline(declined)]
    ensures AnsweredFor(env, cmd, offers, calls)
  {
    OneFits(env, cmd, offers);
    LaunchClaims(cmd);
    hide Pick, Suits, FirstFit, ClaimsOf, ClaimsNeeds;
    var p := Pick(env, cmd, offers);
    OneAccept(offers, p, declined, Accept(offers[p].id, cmd.id, ClaimsOf(cmd)), calls);
    hide AcceptedIn, DeclinedIn;
  }

  lemma OneDecline(offers: seq<Offer>)
    ensures AllDeclined(offers, [Decline(OfferIds(offers))])
    ensures forall i | 0 <= i < |offers| :: !AcceptedIn([Decline(OfferIds(offers))], offers[i].id)
  {
    var calls := [Decline(OfferIds(offers))];
    forall i | 0 <= i < |offers| ensures DeclinedIn(calls, offers[i].id) {
      assert OfferIds(offers)[i] == offers[i].id;
      assert calls[0] in calls;
    }
  }

  lemma OneAccept(offers: seq<Offer>, p: nat, declined: seq<string>, accept: Call, calls: seq<Call>)
    requires p < |offers| && AllBut(declined, offers, p) && accept.Accept? && accept.offer == offers[p].id
    requires forall i, j | 0 <= i < j < |offers| :: offers[i].id != offers[j].id
    requires calls == [Decline(declined), accept] || calls == [Decline(declined), accept, Decline(declined)]
    ensures forall i | 0 <= i < |offers| :: AcceptedIn(calls, offers[i].id) <==> i == p
    ensures forall i | 0 <= i < |offers| :: DeclinedIn(calls, offers[i].id) <==> i != p
    ensures forall c | c in calls :: c.Decline? || c == accept
  {
    assert calls[0] == Decline(declined) && calls[1] == accept;
    assert forall c | c in calls :: c == Decline(declined) || c == accept;
  }

  /** The first offer that fits is the one picked. */
  lemma OneFits(env: Settings, cmd: Command, offers: seq<Offer>)
    ensures forall i | 0 <= i < |offers| :: FirstFit(env, cmd, offers, i) <==> i == Pick(env, cmd, offers)
  {
    forall j | 0 <= j < |offers| ensures Suits(env, cmd, offers[j]) <==> Fits(env, cmd, offers[j]) {
      SuitsFits(env, cmd, offers[j]);
    }
    hide Suits, Fits;
  }

  /** An offer without a host or an ID that is the first to fit is not taken: the command goes back, and the offers are
      declined, but for those without an ID if the offer had a host. */
  lemma MalformedOffer(env: Settings, s: Sys, offers: seq<Offer>, accepted: bool, p: nat)
    requires |s.queue| > 0 && s.queue[0].id != "" && s.queue[0].name.Some?
    requires p < |offers| && FirstFit(env, s.queue[0], offers, p) && (offers[p].hostname == "" || offers[p].id == "")
    ensures var r := OffersHandled(env, s, offers, accepted);
            && r.queue == s.queue[1..] + [s.queue[0]]
            && exists declined ::
                 && r.log == s.log + [Decline(declined)]
                 && forall id :: id in declined <==>
                      (id != "" || offers[p].hostname == "") && exists i :: 0 <= i < |offers| && offers[i].id == id
  {
    OneFits(env, s.queue[0], offers);
    var declined := Leftover(env, s.queue[0], offers);
    OneDecline(offers);
    IdsExceptIn(OfferIds(offers), "");
    hide Pick, FirstFit, ClaimsOf;
    assert OffersHandled(env, s, offers, accepted).log == s.log + [Decline(declined)];
    forall id ensures id in OfferIds(offers) <==> exists i :: 0 <= i < |offers| && offers[i].id == id {
      if i :| 0 <= i < |offers| && offers[i].id == id {
        assert OfferIds(offers)[i] == id;
      }
    }
  }
}
