/** Building blocks for concrete runs of the gateway. */
module Scenarios {
  import opened Gateway
  import opened GatewayInvariants
  import M = Metrics

  lemma Advance(c: Config, s: State, e: Event) returns (t: State)
    requires Reachable(c, s) && Enabled(c, s, e)
    ensures t == Next(c, s, e) && Reachable(c, t)
  {
    t := Next(c, s, e);
    ReachNext(c, s, e);
  }

  function AcceptedHandler(call: Call, minted: string): Handler {
    Handler(call, SuppliedId(call).GetOr(minted), Sent, Open)
  }

  function AcceptedJob(s: State, call: Call, minted: string): Job {
    Job(Stamped(call, SuppliedId(call).GetOr(minted)), |s.handlers|)
  }

  /** A new call is validated and put on a queue with room. */
  lemma Accept(c: Config, s: State, call: Call, minted: string) returns (t: State)
    requires Reachable(c, s) && |s.queue| < c.capacity
    ensures Reachable(c, t)
    ensures t == s.(handlers := s.handlers + [AcceptedHandler(call, minted)],
                    queue := s.queue + [AcceptedJob(s, call, minted)],
                    accepted := s.accepted + [AcceptedJob(s, call, minted)])
  {
    var h := |s.handlers|;
    t := Advance(c, s, Arrive(call));
    t := Advance(c, t, Validate(h, true, minted));
    t := Advance(c, t, TrySend(h));
    assert t.handlers == s.handlers + [AcceptedHandler(call, minted)];
  }

  /** A listening handler enters the flight. */
  lemma Begin(c: Config, s: State, h: nat) returns (t: State)
    requires Reachable(c, s) && h < |s.handlers| && s.handlers[h].pc.Sent?
    ensures Reachable(c, t)
    ensures t == s.(handlers := s.handlers[h := s.handlers[h].(pc := Waiting)],
                    counters := M.EnterFlight(M.CountRequest(s.counters)))
  {
    t := Advance(c, s, BeginCount(h));
    t := Advance(c, t, BeginFlight(h));
    assert t.handlers == s.handlers[h := s.handlers[h].(pc := Waiting)];
  }

  /** A handler that stopped waiting carries out its whole finish_request. */
  lemma FinishFully(c: Config, s: State, h: nat) returns (t: State)
    requires Reachable(c, s) && h < |s.handlers| && s.handlers[h].pc.Ending? && s.handlers[h].pc.stage == 0
    ensures Reachable(c, t)
    ensures var pc := s.handlers[h].pc;
            t == s.(handlers := s.handlers[h := s.handlers[h].(pc := pc.(stage := 5))],
                    counters := M.Finished(s.counters, OutcomeOf(pc.received), pc.latency))
  {
    t := Advance(c, s, Finish(h));
    t := Advance(c, t, Finish(h));
    t := Advance(c, t, Finish(h));
    t := Advance(c, t, Finish(h));
    t := Advance(c, t, Finish(h));
    assert t.handlers == s.handlers[h := s.handlers[h].(pc := s.handlers[h].pc.(stage := 5))];
  }
}
