/** The treatment of one Command, from its dispatch to its announcement, as a run of the protocol. */
module Turns {
  import opened Entries
  import opened Protocol

  /** The steps of one Command's treatment, from its dispatch on. */
  function Turn(first: Step, at: Timestamp): seq<Step> { [first, AppendBatch(at), Commit, Announce] }

  /** What a dispatch step puts in the leader's hands: the batch, the overlay, the Events to report. */
  ghost predicate Dispatches(ap: Applier, s: State, first: Step, batch: seq<Entry>, work: Projection,
                             applied: seq<Event>)
  {
    && AtCommand(s)
    && ((first == Produce(batch) && BatchOf(batch, s.role.cursor) && work == Fold(ap, s.store, batch) &&
      applied == Events(batch))
        || (first.Refuse? && batch == RefusalOf(s.role.cursor, first.reject, first.at) && work == s.store
            && applied == s.role.lastApplied))
  }

  /** The state a Command's treatment ends in, as far as the driver's objects show it. */
  ghost predicate Turned(s: State, t: State, batch: seq<Entry>, work: Projection, applied: seq<Event>, at: Timestamp)
    requires s.role.Live?
  {
    && t.stream == s.stream && t.log == AppendTo(s.stream, s.log, batch + [NoopOf(s.role.cursor, at)], at)
    && t.store == work && t.w == |t.log|
    && t.role.Live? && t.role.stage.Reading? && t.role.cursor == s.role.cursor + 1
    && t.role.watermark == |t.log| && t.role.lastApplied == []
    && t.role.trace.reported == s.role.trace.reported + applied
    && t.role.trace.refused == s.role.trace.refused + Rejects(batch)
  }

  lemma AppendTurn(ap: Applier, s: State, batch: seq<Entry>, work: Projection, at: Timestamp)
    requires s.role.Live? && s.role.stage == Dispatched(batch, work)
    ensures IsRun(ap, s, Turn(Skip, at)[1..])
    ensures Turned(s, After(ap, s, Turn(Skip, at)[1..]), batch, work, s.role.lastApplied, at)
  {
    var steps := Turn(Skip, at)[1..];
    var s2 := Next(ap, s, AppendBatch(at));
    var s3 := Next(ap, s2, Commit);
    assert steps[1..][1..] == [Announce] && [Announce][1..] == [];
    assert IsRun(ap, Next(ap, s3, Announce), []);
    assert IsRun(ap, s3, [Announce]) && After(ap, s3, [Announce]) == Next(ap, s3, Announce);
    assert IsRun(ap, s2, steps[1..]) && After(ap, s2, steps[1..]) == Next(ap, s3, Announce);
  }

  lemma TurnIsRun(ap: Applier, s: State, first: Step, at: Timestamp, batch: seq<Entry>, work: Projection,
                  applied: seq<Event>)
    requires Dispatches(ap, s, first, batch, work, applied)
    ensures IsRun(ap, s, Turn(first, at))
    ensures Turned(s, After(ap, s, Turn(first, at)), batch, work, applied, at)
  {
    AppendTurn(ap, Next(ap, s, first), batch, work, at);
    assert Turn(first, at)[1..] == Turn(Skip, at)[1..];
  }
}
