/** What every run of the signalling exchange guarantees. */
module SignallingTheorems {
  import opened Wrappers
  import opened Permission
  import opened Daemon
  import opened Signalling
  import Client = SignalClient

  predicate IsComplete(s: System, i: nat) {
    i in s.peers && s.peers[i].state.phase.Complete?
  }

  function PairingOf(s: System, i: nat): Client.Paired
    requires IsComplete(s, i)
  {
    s.peers[i].state.phase.pairing
  }

  /** Agreement: a client that passed its checks with pair ID P holds the P the daemon issued for that very
      client's response, with the client's own intention, which was permitted; both ends name the same
      relay, and their connection keys are equal exactly when their access keys are. */
  lemma Agreement(s: System, i: nat)
    requires Reachable(s) && IsComplete(s, i)
    ensures var peer, got := s.peers[i], PairingOf(s, i);
            && got.pairID in s.log && peer.state.sent.Some?
            && s.log[got.pairID] == Entry(peer.state.sent.value.token, Ephemeral(i), peer.state.sent.value.pairKey, peer.cfg.intention)
            && Permitted(s.cfg.checker, peer.cfg.intention)
            && peer.cfg.username == s.cfg.username
            && got.relay == s.cfg.relay && got.signature == Some(s.cfg.signature)
            && (got.key == HashOf(s.log[got.pairID].pairKey, s.cfg.accessKey) <==> peer.cfg.accessKey == s.cfg.accessKey)
  {
    ReachableInv(s);
    assert GoodPeer(s, i, s.peers[i]);
    assert GoodEntry(s, PairingOf(s, i).pairID, s.log[PairingOf(s, i).pairID]);
  }

  /** A pair ID belongs to one client only. */
  lemma PairIDsAreUnique(s: System, i: nat, j: nat)
    requires Reachable(s) && IsComplete(s, i) && IsComplete(s, j) && PairingOf(s, i).pairID == PairingOf(s, j).pairID
    ensures i == j
  {
    ReachableInv(s);
    assert GoodPeer(s, i, s.peers[i]) && GoodPeer(s, j, s.peers[j]);
  }

  // ------------------------------------------------------------------ the daemon's session of a pair ID

  predicate IsSessionOf(s: System, k: nat, pid: nat) {
    k < |s.sessions| && s.sessions[k].pairID == pid
  }

  ghost predicate HasSession(s: System, pid: nat) {
    exists k: nat :: IsSessionOf(s, k, pid)
  }

  // Whether the tomb was alive at the step of the run that confirmed this pair ID.
  predicate TombAliveFor(s: System, run: seq<Step>, pid: nat)
    requires IsRun(s, run)
    decreases |run|
  {
    run != [] &&
    if run[0].DaemonReads? && Grants(s, run[0].p) && pid == s.counter + 1 then run[0].tombAlive
    else TombAliveFor(Apply(s, run[0]), run[1..], pid)
  }

  ghost predicate DistinctSessions(s: System) {
    forall k, l :: 0 <= k < l < |s.sessions| ==> s.sessions[k].pairID != s.sessions[l].pairID
  }

  lemma PairIDsAreOld(s: System)
    requires Inv(s)
    ensures forall pid :: pid in s.log ==> pid < s.counter
    ensures forall k :: 0 <= k < |s.sessions| ==> s.sessions[k].pairID in s.log
    ensures s.tokens.Keys <= s.issued.Keys
  {
    forall pid | pid in s.log ensures pid < s.counter { assert GoodEntry(s, pid, s.log[pid]); }
    forall k | 0 <= k < |s.sessions| ensures s.sessions[k].pairID in s.log { assert GoodSession(s, s.sessions[k]); }
  }

  // A step logs a pair ID exactly when it grants a request, and starts a session for it unless that is a
  // forward that meets a dead tomb.
  lemma StepStarts(s: System, step: Step)
    requires Inv(s) && Can(s, step)
    ensures var s' := Apply(s, step);
            if step.DaemonReads? && Grants(s, step.p) then
              && s'.log == s.log[s.counter + 1 := EntryFor(s, step.p)]
              && (if EntryFor(s, step.p).intention.PipeOut? || step.tombAlive
                  then |s'.sessions| == |s.sessions| + 1 && s.sessions <= s'.sessions && IsSessionOf(s', |s.sessions|, s.counter + 1)
                  else s'.sessions == s.sessions)
            else s'.log == s.log && s'.sessions == s.sessions
  {
  }

  lemma StepHasSession(s: System, step: Step, pid: nat)
    requires Inv(s) && Can(s, step) && DistinctSessions(s)
    ensures var s' := Apply(s, step);
            && DistinctSessions(s')
            && (pid in s.log ==> pid in s'.log && s'.log[pid] == s.log[pid] && (HasSession(s', pid) <==> HasSession(s, pid)))
            && (pid !in s.log && pid in s'.log ==>
                  && step.DaemonReads? && Grants(s, step.p) && pid == s.counter + 1
                  && (HasSession(s', pid) <==> s'.log[pid].intention.PipeOut? || step.tombAlive))
  {
    var s' := Apply(s, step);
    PairIDsAreOld(s);
    StepStarts(s, step);
    hide Inv, Can, Apply, Grants, EntryFor;
    if pid in s.log && HasSession(s, pid) {
      var k: nat :| IsSessionOf(s, k, pid);
      assert IsSessionOf(s', k, pid);
    }
    if HasSession(s', pid) {
      var k: nat :| IsSessionOf(s', k, pid);
      assert k < |s.sessions| ==> IsSessionOf(s, k, pid);
    }
  }

  lemma {:induction false} RunStarts(s: System, run: seq<Step>, pid: nat)
    requires Inv(s) && IsRun(s, run) && DistinctSessions(s)
    ensures var s' := Exec(s, run);
            && DistinctSessions(s')
            && (pid in s.log ==> pid in s'.log && s'.log[pid] == s.log[pid] && (HasSession(s', pid) <==> HasSession(s, pid)))
            && (pid !in s.log && pid in s'.log ==>
                  (HasSession(s', pid) <==> s'.log[pid].intention.PipeOut? || TombAliveFor(s, run, pid)))
    decreases |run|
  {
    if run != [] {
      hide Inv, Grants, EntryFor, Can, Apply, HasSession, DistinctSessions;
      StepHasSession(s, run[0], pid);
      StepKeepsInv(s, run[0]);
      PairIDsAreOld(s);
      StepStarts(s, run[0]);
      RunStarts(Apply(s, run[0]), run[1..], pid);
    }
  }

  // A session of a complete client's pair ID has the keys of that exchange and does what was asked.
  lemma SessionMatchesClient(s: System, i: nat, k: nat)
    requires Reachable(s) && IsComplete(s, i) && IsSessionOf(s, k, PairingOf(s, i).pairID)
    ensures var x, got := s.sessions[k], PairingOf(s, i);
            && got.key.accessKey == s.peers[i].cfg.accessKey && x.key == HashOf(got.key.pairKey, s.cfg.accessKey)
            && (x.key == got.key <==> s.peers[i].cfg.accessKey == s.cfg.accessKey)
            && x.relay == got.relay && x.work == WorkFor(s.peers[i].cfg.intention)
  {
    Agreement(s, i);
    ReachableInv(s);
    assert GoodPeer(s, i, s.peers[i]) && GoodSession(s, s.sessions[k]);
  }

  /** The daemon's side of a completed exchange, in every run: it has started a session with the client's pair
      ID if and only if the client asked for a pipe or the tomb was alive when the request was granted; there
      is never more than one; and it holds the same pair key and relay and does the work the client asked
      for, so the connection keys are equal if and only if the access keys are. */
  lemma SessionsMatchClients(cfg: Config, run: seq<Step>, i: nat)
    requires IsRun(Start(cfg), run) && IsComplete(Exec(Start(cfg), run), i)
    ensures var s := Exec(Start(cfg), run);
            var peer, got := s.peers[i], PairingOf(s, i);
            && (HasSession(s, got.pairID) <==> peer.cfg.intention.PipeOut? || TombAliveFor(Start(cfg), run, got.pairID))
            && (forall k: nat, l: nat :: IsSessionOf(s, k, got.pairID) && IsSessionOf(s, l, got.pairID) ==> k == l)
            && (forall k: nat :: IsSessionOf(s, k, got.pairID) ==>
                  && s.sessions[k].key == HashOf(got.key.pairKey, s.cfg.accessKey)
                  && (s.sessions[k].key == got.key <==> peer.cfg.accessKey == s.cfg.accessKey)
                  && s.sessions[k].relay == got.relay && s.sessions[k].work == WorkFor(peer.cfg.intention))
  {
    var s := Exec(Start(cfg), run);
    var pid := PairingOf(s, i).pairID;
    assert Reachable(s);
    Agreement(s, i);
    StartInv(cfg);
    RunStarts(Start(cfg), run, pid);
    forall k: nat, l: nat | IsSessionOf(s, k, pid) && IsSessionOf(s, l, pid)
      ensures k == l
    {
      assert !(k < l) && !(l < k);
    }
    forall k: nat | IsSessionOf(s, k, pid)
      ensures s.sessions[k].key == HashOf(PairingOf(s, i).key.pairKey, s.cfg.accessKey)
      ensures s.sessions[k].key == PairingOf(s, i).key <==> s.peers[i].cfg.accessKey == s.cfg.accessKey
      ensures s.sessions[k].relay == PairingOf(s, i).relay && s.sessions[k].work == WorkFor(s.peers[i].cfg.intention)
    {
      SessionMatchesClient(s, i, k);
    }
  }

  /** Two sessions never share a pair ID, in any run. */
  lemma SessionsAreDistinct(cfg: Config, run: seq<Step>)
    requires IsRun(Start(cfg), run)
    ensures DistinctSessions(Exec(Start(cfg), run))
  {
    StartInv(cfg);
    RunStarts(Start(cfg), run, 0);
  }

  // ------------------------------------------------------------------ permissions

  /** Every session the daemon ever starts passed its checker, for the intention of a client that
      answered a challenge; the port in use is the permitted one, cut down to 16 bits. */
  lemma SessionsArePermitted(s: System, k: nat)
    requires Reachable(s) && k < |s.sessions|
    ensures var x := s.sessions[k];
            && x.pairID in s.log
            && Permitted(s.cfg.checker, s.log[x.pairID].intention)
            && x.work == WorkFor(s.log[x.pairID].intention)
            && Answered(s, s.log[x.pairID].source, s.log[x.pairID].token, s.log[x.pairID].pairKey, s.log[x.pairID].intention)
  {
    ReachableInv(s);
    assert GoodSession(s, s.sessions[k]);
    assert GoodEntry(s, s.sessions[k].pairID, s.log[s.sessions[k].pairID]);
  }

  /** The same read off the rules alone: a pipe needs the pipe rule, dialing out the rule for incoming and
      listening the rule for outgoing forwards; the address asked for is the rule's, unless the rule is for
      any address; and the session uses that host, and that port cut down to 16 bits. */
  lemma SessionsObeyTheRules(s: System, k: nat)
    requires Reachable(s) && k < |s.sessions|
    ensures var rules, x := s.cfg.checker.rules, s.sessions[k];
            x.pairID in s.log &&
            match s.log[x.pairID].intention
            case PipeOut => x.work == PipeOutlet && rules.pipeOut
            case PortForwardTo(h, p) =>
              && x.work == DialOut(h, p % 0x1_0000) && rules.forward == FORWARD_IN
              && ((h == rules.host && p == rules.port) || (rules.host == "" && rules.port == 0))
            case PortForwardFrom(h, p) =>
              && x.work == ListenOn(h, p % 0x1_0000) && rules.forward == FORWARD_OUT
              && ((h == rules.host && p == rules.port) || (rules.host == "" && rules.port == 0))
  {
    SessionsArePermitted(s, k);
  }

  /** Under a rule for one address, a session uses exactly the rule's host, and exactly its port if and
      only if that port fits 16 bits. */
  lemma SpecificRuleIsUsedExactly(s: System, k: nat)
    requires Reachable(s) && k < |s.sessions| && !AnyAddress(s.cfg.checker.rules) && !s.sessions[k].work.PipeOutlet?
    ensures var rules, work := s.cfg.checker.rules, s.sessions[k].work;
            && work.host == rules.host
            && (work.port == rules.port <==> 0 <= rules.port < 0x1_0000)
            && (work.DialOut? <==> rules.forward == FORWARD_IN)
  {
    SessionsArePermitted(s, k);
  }

  // ------------------------------------------------------------------ tokens

  // This step confirms a response with token t and leaves t live: an accepted pipe, or an accepted
  // forward whose goroutine could not be started.
  predicate Keeps(s: System, step: Step, t: nat) {
    && step.DaemonReads? && Grants(s, step.p) && step.p.body.token == t
    && (EntryFor(s, step.p).intention.PipeOut? || !step.tombAlive)
  }

  predicate NeverKeeps(s: System, run: seq<Step>, t: nat)
    requires IsRun(s, run)
    decreases |run|
  {
    run == [] || (!Keeps(s, run[0], t) && NeverKeeps(Apply(s, run[0]), run[1..], t))
  }

  // At most one confirmation and one session for t; and once there is one, t is spent.
  ghost predicate SpentOnce(s: System, t: nat) {
    && (forall k, l :: 0 <= k < l < |s.confirmed| ==> !(s.confirmed[k] == t == s.confirmed[l]))
    && (forall k, l :: 0 <= k < l < |s.sessions| && s.sessions[k].pairID in s.log && s.sessions[l].pairID in s.log ==>
          !(s.log[s.sessions[k].pairID].token == t == s.log[s.sessions[l].pairID].token))
    && (t in s.confirmed ==> t in s.issued && t !in s.tokens)
    && (forall k :: 0 <= k < |s.sessions| && s.sessions[k].pairID in s.log && s.log[s.sessions[k].pairID].token == t ==>
          t in s.confirmed)
  }

  // What a daemon step can add: one confirmation and one session, both for the token it handles.
  lemma DaemonAdds(s: System, step: Step)
    requires Inv(s) && Can(s, step) && step.DaemonReads?
    ensures var s' := Apply(s, step);
            && (s'.confirmed == s.confirmed || (s'.confirmed == s.confirmed + [step.p.body.token] && step.p.body.token in s.tokens
                  && (step.p.body.token in s'.tokens ==> Keeps(s, step, step.p.body.token))))
            && (s'.sessions == s.sessions || (|s'.sessions| == |s.sessions| + 1 && s'.sessions[..|s.sessions|] == s.sessions
                  && s'.sessions[|s.sessions|].pairID == s.counter + 1 && s'.log[s.counter + 1].token == step.p.body.token
                  && s'.confirmed == s.confirmed + [step.p.body.token]))
            && (forall pid :: pid in s.log ==> pid in s'.log && (pid != s.counter + 1 ==> s'.log[pid] == s.log[pid]))
            && (forall t :: t in s.issued && t !in s.tokens ==> t !in s'.tokens)
            && s.issued.Keys <= s'.issued.Keys
  {
  }

  lemma OthersAdd(s: System, step: Step)
    requires Can(s, step) && !step.DaemonReads?
    ensures var s' := Apply(s, step);
            s'.confirmed == s.confirmed && s'.sessions == s.sessions && s'.log == s.log && s'.issued == s.issued && s'.tokens == s.tokens
  {
  }

  lemma DaemonSpendsOnce(s: System, step: Step, t: nat)
    requires Inv(s) && Can(s, step) && step.DaemonReads? && SpentOnce(s, t) && !Keeps(s, step, t)
    ensures SpentOnce(Apply(s, step), t)
  {
    hide Inv, Keeps, Apply, Can;
    PairIDsAreOld(s);
    DaemonAdds(s, step);
  }

  lemma StepSpendsOnce(s: System, step: Step, t: nat)
    requires Inv(s) && Can(s, step) && SpentOnce(s, t) && !Keeps(s, step, t)
    ensures SpentOnce(Apply(s, step), t)
  {
    hide Inv, Keeps, Apply, Can;
    if step.DaemonReads? {
      DaemonSpendsOnce(s, step, t);
    } else {
      PairIDsAreOld(s);
      OthersAdd(s, step);
    }
  }

  lemma {:induction false} RunSpendsOnce(s: System, run: seq<Step>, t: nat)
    requires Inv(s) && IsRun(s, run) && SpentOnce(s, t) && NeverKeeps(s, run, t)
    ensures SpentOnce(Exec(s, run), t)
    decreases |run|
  {
    if run != [] {
      StepKeepsInv(s, run[0]);
      StepSpendsOnce(s, run[0], t);
      RunSpendsOnce(Apply(s, run[0]), run[1..], t);
    }
  }

  /** Unless some step keeps it, a token yields at most one confirmation and at most one session in the
      whole run, however often its response is delivered. */
  lemma TokensAreSpentOnce(cfg: Config, run: seq<Step>, t: nat)
    requires IsRun(Start(cfg), run) && NeverKeeps(Start(cfg), run, t)
    ensures SpentOnce(Exec(Start(cfg), run), t)
  {
    StartInv(cfg);
    RunSpendsOnce(Start(cfg), run, t);
  }

  /** The converse: after a step that keeps a token, delivering the same response again, before the daemon's
      socket is closed, confirms the token a second time, under a new pair ID. The step has asked for the
      close only if it was a pipe that ended well. */
  lemma KeptTokenIsConfirmedAgain(s: System, step: Step, t: nat)
    requires Reachable(s) && Can(s, step) && Keeps(s, step, t)
    ensures var s1 := Apply(s, step);
            && Can(s1, step) && Keeps(s1, step, t)
            && (s1.stopping <==> s.stopping || (EntryFor(s, step.p).intention.PipeOut? && step.pipeSucceeds))
            && Apply(s1, step).confirmed == s.confirmed + [t, t]
            && s.counter + 1 in s1.log && s1.counter + 1 in Apply(s1, step).log && s1.counter != s.counter
  {
    assert s.confirmed + [t] + [t] == s.confirmed + [t, t];
  }

  // What a client said in its response stays on record.
  lemma AnswerPersists(s: System, step: Step, i: nat)
    requires Can(s, step) && i in s.peers && s.peers[i].state.sent.Some? && !s.peers[i].state.phase.AwaitChallenge?
    ensures var s' := Apply(s, step);
            && i in s'.peers && s'.peers[i].cfg == s.peers[i].cfg && s'.peers[i].state.sent == s.peers[i].state.sent
            && !s'.peers[i].state.phase.AwaitChallenge?
  {
  }

  lemma {:induction false} AnswersPersist(s: System, run: seq<Step>, i: nat)
    requires IsRun(s, run) && i in s.peers && s.peers[i].state.sent.Some? && !s.peers[i].state.phase.AwaitChallenge?
    ensures var s' := Exec(s, run);
            i in s'.peers && s'.peers[i].cfg == s.peers[i].cfg && s'.peers[i].state.sent == s.peers[i].state.sent
    decreases |run|
  {
    if run != [] {
      AnswerPersists(s, run[0], i);
      AnswersPersist(Apply(s, run[0]), run[1..], i);
    }
  }

  // Every client that answered with token t asked for a forward.
  ghost predicate AskedForForward(s: System, t: nat) {
    forall i :: i in s.peers && s.peers[i].state.sent.Some? && s.peers[i].state.sent.value.token == t ==>
      !s.peers[i].cfg.intention.PipeOut?
  }

  predicate TombLives(run: seq<Step>) {
    forall k :: 0 <= k < |run| && run[k].DaemonReads? ==> run[k].tombAlive
  }

  lemma {:induction false} ForwardsAreNeverKept(s: System, run: seq<Step>, t: nat)
    requires Inv(s) && IsRun(s, run) && TombLives(run) && AskedForForward(Exec(s, run), t)
    ensures NeverKeeps(s, run, t)
    decreases |run|
  {
    if run != [] {
      StepKeepsInv(s, run[0]);
      ForwardsAreNeverKept(Apply(s, run[0]), run[1..], t);
      if Keeps(s, run[0], t) {
        var i := run[0].p.source.id;
        assert GoodPacket(s, run[0].p) && GoodPeer(s, i, s.peers[i]);
        AnswersPersist(s, run, i);
      }
    }
  }

  /** While the tomb lives, the token of a client that asks for a forward yields at most one confirmation
      and at most one session, whatever the other clients ask for and whatever the network repeats. */
  lemma ForwardTokensAreSpentOnce(cfg: Config, run: seq<Step>, t: nat)
    requires IsRun(Start(cfg), run) && TombLives(run) && AskedForForward(Exec(Start(cfg), run), t)
    ensures SpentOnce(Exec(Start(cfg), run), t)
  {
    StartInv(cfg);
    ForwardsAreNeverKept(Start(cfg), run, t);
    TokensAreSpentOnce(cfg, run, t);
  }

  /** Live tokens were issued, and a token that is no longer live never becomes live again. */
  lemma TokensNeverReturn(s: System, step: Step, t: nat)
    requires Reachable(s) && Can(s, step)
    ensures s.tokens.Keys <= s.issued.Keys
    ensures t in s.issued && t !in s.tokens ==> t in Apply(s, step).issued && t !in Apply(s, step).tokens
  {
    ReachableInv(s);
  }

  /** A live token stays live until a step confirms it. */
  lemma TokensLiveUntilConfirmed(s: System, step: Step, t: nat)
    requires Can(s, step) && t in s.tokens
    ensures t in Apply(s, step).tokens || Apply(s, step).confirmed == s.confirmed + [t]
  {
    if step.DaemonReads? && step.p.body.ChallengeResponse? {
      HandledResponses(s.cfg, s.tokens, step.p, DrawFor(s, step));
    }
  }

  /** A request for a challenge that the daemon reads makes a new token live, and puts its challenge for the
      asker on the network. */
  lemma RequestsAreChallenged(s: System, step: Step)
    requires Inv(s) && Can(s, step) && step.DaemonReads?
    requires step.p.destination == Username(s.cfg.username) && step.p.body.ChallengeRequest?
    ensures var s', t := Apply(s, step), s.counter;
            && t !in s.issued && s'.issued == s.issued[t := step.p.source]
            && s'.tokens.Keys == s.tokens.Keys + {t} && s'.confirmed == s.confirmed
            && Packet(Username(s.cfg.username), step.p.source, Challenge(t)) in s'.net
  {
    HandledRequests(s.cfg, s.tokens, step.p, DrawFor(s, step));
    var challenge := Packet(Username(s.cfg.username), step.p.source, Challenge(s.counter));
    assert challenge in [challenge];
  }

  // Every token issued is accounted for.
  ghost predicate TokensKept(s: System) {
    forall t :: t in s.issued ==>
      && (t in s.tokens || t in s.confirmed)
      && Packet(Username(s.cfg.username), s.issued[t], Challenge(t)) in s.net
  }

  lemma StepKeepsTokens(s: System, step: Step)
    requires Inv(s) && Can(s, step) && TokensKept(s)
    ensures TokensKept(Apply(s, step))
  {
    var s' := Apply(s, step);
    if step.DaemonReads? && AsksDaemon(s, step.p) {
      RequestsAreChallenged(s, step);
    }
    forall t | t in s.issued
      ensures t in s'.tokens || t in s'.confirmed
    {
      if t in s.tokens {
        TokensLiveUntilConfirmed(s, step, t);
      } else {
        assert t in s.confirmed;
      }
    }
  }

  lemma {:induction false} RunKeepsTokens(s: System, run: seq<Step>)
    requires Inv(s) && IsRun(s, run) && TokensKept(s)
    ensures TokensKept(Exec(s, run))
    decreases |run|
  {
    if run != [] {
      StepKeepsTokens(s, run[0]);
      StepKeepsInv(s, run[0]);
      RunKeepsTokens(Apply(s, run[0]), run[1..]);
    }
  }

  /** In every run: each token ever issued was sent to the one who asked for it, and is live or has been
      confirmed. */
  lemma IssuedTokensAreLiveOrConfirmed(s: System, t: nat)
    requires Reachable(s) && t in s.issued
    ensures t in s.tokens || t in s.confirmed
    ensures Packet(Username(s.cfg.username), s.issued[t], Challenge(t)) in s.net
  {
    var cfg, run :| IsRun(Start(cfg), run) && Exec(Start(cfg), run) == s;
    StartInv(cfg);
    RunKeepsTokens(Start(cfg), run);
  }

  // ------------------------------------------------------------------ the client's two reads

  /** A client that waits for a challenge answers any challenge with its token, a new nonce and a new pair key,
      sealed for its own intention; any other message ends it. */
  lemma ChallengesAreAnswered(s: System, i: nat, p: Packet)
    requires Can(s, ClientReads(i, p)) && s.peers[i].state.phase.AwaitChallenge?
    ensures var s', cfg, me := Apply(s, ClientReads(i, p)), s.peers[i].cfg, Ephemeral(i);
            && s'.peers[i].cfg == cfg
            && (if p.body.Challenge? then
                  var t, nonce, key := p.body.token, s.counter, s.counter + 1;
                  && s'.peers[i].state == Client.State(Client.AwaitConfirm, Some(Client.Sent(t, nonce, key)))
                  && s'.net == s.net + {Packet(me, Username(cfg.username),
                       ChallengeResponse(t, nonce, Sealed(cfg.username, t, nonce, Request(key, Some(cfg.intention)))))}
                else s'.peers[i].state.phase.Failed? && s'.net == s.net)
  {
    if p.body.Challenge? {
      var q := Client.ResponsePacket(s.peers[i].cfg, Ephemeral(i), Client.Sent(p.body.token, s.counter, s.counter + 1));
      assert ToSet([q]) == {q};
    }
  }

  // What a reachable confirmation for client i's own token holds.
  lemma OwnConfirmation(s: System, i: nat, p: Packet)
    requires Reachable(s) && p in s.net && p.destination == Ephemeral(i) && p.body.Confirm?
    requires i in s.peers && s.peers[i].state.phase.AwaitConfirm?
    ensures s.peers[i].state.sent.Some?
    ensures p.body.payload == Sealed(s.cfg.username, p.body.token, p.body.nonce, p.body.payload.plain) && p.body.payload.plain.Result?
    ensures p.body.payload.plain.ok && p.body.token == s.peers[i].state.sent.value.token ==>
              p.body.payload.plain.relay == Some(s.cfg.relay) && p.body.payload.plain.pairID.Some? && s.peers[i].cfg.username == s.cfg.username
  {
    hide GoodSession, Permitted;
    ReachableInv(s);
    assert GoodPacket(s, p) && GoodPeer(s, i, s.peers[i]);
    if p.body.payload.plain.ok {
      var pid := p.body.payload.plain.pairID.value;
      assert GoodEntry(s, pid, s.log[pid]);
    }
  }

  /** A client that waits for a confirmation completes if and only if what it reads is an acceptance of its own
      token, and the relay's address parses; otherwise it fails. */
  lemma CompletesIff(s: System, i: nat, p: Packet)
    requires Reachable(s) && Can(s, ClientReads(i, p)) && s.peers[i].state.phase.AwaitConfirm?
    ensures var peer := Apply(s, ClientReads(i, p)).peers[i];
            && s.peers[i].state.sent.Some?
            && (peer.state.phase.Complete? <==>
                  p.body.Confirm? && p.body.token == s.peers[i].state.sent.value.token
                  && p.body.payload.plain.Result? && p.body.payload.plain.ok && s.cfg.relay.parses)
            && (peer.state.phase.Complete? || peer.state.phase.Failed?)
  {
    hide Reachable, AfterDaemon;
    if p.body.Confirm? {
      OwnConfirmation(s, i, p);
    } else {
      ReachableInv(s);
      assert GoodPeer(s, i, s.peers[i]);
    }
  }

  lemma {:induction false} RunExtends(s: System, run: seq<Step>, step: Step)
    requires IsRun(s, run) && Can(Exec(s, run), step)
    ensures IsRun(s, run + [step]) && Exec(s, run + [step]) == Apply(Exec(s, run), step)
    decreases |run|
  {
    if run == [] {
      assert [] + [step] == [step];
    } else {
      RunExtends(Apply(s, run[0]), run[1..], step);
      assert (run + [step])[1..] == run[1..] + [step];
    }
  }

  lemma Take(s: System, step: Step) returns (s': System)
    requires Reachable(s) && Can(s, step)
    ensures s' == Apply(s, step) && Reachable(s')
  {
    var cfg, run :| IsRun(Start(cfg), run) && Exec(Start(cfg), run) == s;
    RunExtends(Start(cfg), run, step);
    s' := Apply(s, step);
  }

  // A client has been sent a challenge.
  lemma ChallengeIsSent(cfg: Config, who: Client.Config) returns (s: System)
    requires who.username == cfg.username
    ensures Reachable(s) && s.peers == map[0 := Peer(who, Client.State(Client.AwaitChallenge, None))]
    ensures s == Start(cfg).(peers := s.peers, net := s.net, counter := 3, tokens := s.tokens, issued := map[0 := Ephemeral(0)])
    ensures Packet(Username(cfg.username), Ephemeral(0), Challenge(0)) in s.net && 0 in s.tokens
  {
    assert IsRun(Start(cfg), []) && Exec(Start(cfg), []) == Start(cfg);
    s := Take(Start(cfg), Join(0, who));
    s := Take(s, AskForChallenge(0));
    s := Take(s, DaemonReads(Client.RequestPacket(who, Ephemeral(0)), 0, true, true));
  }

  // A client asks for something permitted, and has answered its challenge.
  lemma RequestIsMade(cfg: Config, who: Client.Config) returns (s: System, p: Packet)
    requires Permitted(cfg.checker, who.intention) && who.username == cfg.username
    ensures Reachable(s) && s.cfg == cfg && s.confirmed == [] && s.sessions == [] && s.counter == 5
    ensures !s.stopping && !s.closed
    ensures s.peers == map[0 := Peer(who, Client.State(Client.AwaitConfirm, Some(Client.Sent(0, 3, 4))))]
    ensures p == Client.ResponsePacket(who, Ephemeral(0), Client.Sent(0, 3, 4))
    ensures p in s.net && Grants(s, p) && EntryFor(s, p).intention == who.intention
  {
    s := ChallengeIsSent(cfg, who);
    s := Take(s, ClientReads(0, Packet(Username(cfg.username), Ephemeral(0), Challenge(0))));
    p := Client.ResponsePacket(who, Ephemeral(0), Client.Sent(0, 3, 4));
    assert p in s.net;
  }

  /** For an accepted pipe the at-most-once rule fails. With any configuration that allows pipes: a client
      asks for a pipe, the daemon's pipe session fails, and the network delivers the response again. Then
      one token is confirmed twice, and starts two sessions. */
  lemma PipeTokenIsConfirmedTwice(cfg: Config, accessKey: seq<byte>) returns (s: System)
    requires cfg.checker.CheckPipeOut()
    ensures Reachable(s) && s.cfg == cfg && !s.stopping
    ensures s.confirmed == [0, 0] && |s.sessions| == 2 && s.sessions[0].pairID != s.sessions[1].pairID
  {
    var s0, p := RequestIsMade(cfg, Client.Config(cfg.username, accessKey, PipeOut));
    var again := DaemonReads(p, 0, false, true);
    KeptTokenIsConfirmedAgain(s0, again, 0);
    s := Take(s0, again);
    s := Take(s, again);
  }

  /** A client can complete and have no session: the forward it asks for is granted and confirmed, but the
      tomb is dead, so the goroutine cannot be started. */
  lemma DeadTombLeavesClientAlone(cfg: Config, accessKey: seq<byte>, host: string, port: uint32) returns (s: System)
    requires cfg.checker.CheckPortForwardIn(host, port) && cfg.relay.parses
    ensures Reachable(s) && s.cfg == cfg && IsComplete(s, 0) && s.sessions == []
  {
    var who := Client.Config(cfg.username, accessKey, PortForwardTo(host, port));
    var p;
    s, p := RequestIsMade(cfg, who);
    s := Take(s, DaemonReads(p, 0, true, false));
    var confirm := ConfirmPacket(cfg, 0, Ephemeral(0), 7, Accepted(cfg, 6));
    assert confirm in s.net;
    s := Take(s, ClientReads(0, confirm));
  }

  /** A port that does not fit 16 bits passes the check and is cut: under the rule for port 70000, a session
      dials port 4464. */
  lemma CutPortIsUsed(cfg: Config, accessKey: seq<byte>, host: string) returns (s: System)
    requires cfg.checker == Checker(Add(NoRules, AllowIn(host, 70000)))
    ensures Reachable(s) && s.cfg == cfg && |s.sessions| == 1 && s.sessions[0].work == DialOut(host, 4464)
  {
    var p;
    s, p := RequestIsMade(cfg, Client.Config(cfg.username, accessKey, PortForwardTo(host, 70000)));
    s := Take(s, DaemonReads(p, 0, true, true));
  }
}
