/** Overlapping loads of the hosted key resolver (src/mock_idp/org_registry.py,
    _load_or_create): every load is split at its awaits, and the loads of any number of tasks
    interleave freely. No rotation is in flight. */
module OrgLoads {
  import opened Wrappers
  import opened Keys
  import opened OrgKeys

  /** Where a load stands between two awaits. `Read` holds what the query returned, `Stored` a
      key set that has been written but not cached yet, `Done` what the load handed out. */
  datatype Stage =
    | Started
    | Missed
    | Read(row: Option<Row>)
    | Generated(ks: KeySet)
    | Stored(ks: KeySet)
    | Done(ks: KeySet)

  datatype Task = Task(issuer: string, stage: Stage)

  /** `writes` is the history of upserts into org_jwks for this organisation. */
  datatype State = State(
    org: string, cache: map<string, KeySet>, table: map<string, Row>, made: nat,
    tasks: map<nat, Task>, writes: seq<(string, Row)>)

  datatype Event = Begin(task: nat, issuer: string) | Continue(task: nat)

  function Advance(s: State, id: nat): State
    requires id in s.tasks
  {
    var Task(issuer, stage) := s.tasks[id];
    match stage
    case Started =>
      s.(tasks := s.tasks[id := Task(issuer, if issuer in s.cache then Done(s.cache[issuer]) else Missed)])
    case Missed =>
      s.(tasks := s.tasks[id := Task(issuer, Read(Lookup(s.table, issuer)))])
    case Read(Some(row)) =>
      var ks := Deserialize(issuer, row);
      s.(cache := s.cache[issuer := ks], tasks := s.tasks[id := Task(issuer, Done(ks))])
    case Read(None) =>
      var ks := NewKeySet(Scoped(s.org, issuer), s.made);
      s.(made := s.made + 6, tasks := s.tasks[id := Task(issuer, Generated(ks))])
    case Generated(ks) =>
      s.(table := s.table[issuer := Serialize(ks)], writes := s.writes + [(issuer, Serialize(ks))],
         tasks := s.tasks[id := Task(issuer, Stored(ks))])
    case Stored(ks) =>
      s.(cache := s.cache[issuer := ks], tasks := s.tasks[id := Task(issuer, Done(ks))])
    case Done(_) => s
  }

  function Step(s: State, e: Event): State {
    match e
    case Begin(id, issuer) => if id in s.tasks then s else s.(tasks := s.tasks[id := Task(issuer, Started)])
    case Continue(id) => if id in s.tasks then Advance(s, id) else s
  }

  function Run(s: State, es: seq<Event>): State
    decreases |es|
  {
    if es == [] then s else Run(Step(s, es[0]), es[1..])
  }

  // ── Everything handed out was written first ───────────────────────────────

  predicate Written(s: State, issuer: string, row: Row) {
    (issuer, row) in s.writes
  }

  predicate StageInv(s: State, issuer: string, stage: Stage) {
    match stage
    case Read(Some(row)) => Written(s, issuer, row)
    case Stored(ks) => Written(s, issuer, Serialize(ks))
    case Done(ks) => Written(s, issuer, Serialize(ks)) && issuer in s.cache
    case _ => true
  }

  predicate Inv(s: State) {
    && (forall i :: i in s.cache ==> Written(s, i, Serialize(s.cache[i])))
    && (forall i :: i in s.table ==> Written(s, i, s.table[i]))
    && (forall w :: w in s.writes ==> w.0 in s.table)
    && (forall id :: id in s.tasks ==> StageInv(s, s.tasks[id].issuer, s.tasks[id].stage))
  }

  lemma StageInvGrows(s: State, r: State, issuer: string, stage: Stage)
    requires StageInv(s, issuer, stage)
    requires s.cache.Keys <= r.cache.Keys && s.writes <= r.writes
    ensures StageInv(r, issuer, stage)
  {
  }

  lemma StepGrows(s: State, e: Event)
    ensures s.cache.Keys <= Step(s, e).cache.Keys && s.writes <= Step(s, e).writes
  {
  }

  lemma AdvanceKeepsStageInv(s: State, id: nat)
    requires Inv(s) && id in s.tasks
    ensures StageInv(Advance(s, id), s.tasks[id].issuer, Advance(s, id).tasks[id].stage)
  {
    assert StageInv(s, s.tasks[id].issuer, s.tasks[id].stage);
    AdvanceRecordsWrite(s, id);
  }

  lemma AdvanceRecordsWrite(s: State, id: nat)
    requires id in s.tasks
    ensures var t := s.tasks[id];
            t.stage.Generated? ==> Written(Advance(s, id), t.issuer, Serialize(t.stage.ks))
  {
    var t := s.tasks[id];
    if t.stage.Generated? {
      assert Advance(s, id).writes[|s.writes|] == (t.issuer, Serialize(t.stage.ks));
    }
  }

  lemma AdvanceKeepsInv(s: State, id: nat)
    requires Inv(s) && id in s.tasks
    ensures Inv(Advance(s, id))
  {
    var r := Advance(s, id);
    StepGrows(s, Continue(id));
    AdvanceRecordsWrite(s, id);
    assert StageInv(s, s.tasks[id].issuer, s.tasks[id].stage);
    forall t | t in r.tasks ensures StageInv(r, r.tasks[t].issuer, r.tasks[t].stage) {
      if t == id {
        AdvanceKeepsStageInv(s, id);
      } else {
        StageInvGrows(s, r, s.tasks[t].issuer, s.tasks[t].stage);
      }
    }
  }

  lemma StepKeepsInv(s: State, e: Event)
    requires Inv(s)
    ensures Inv(Step(s, e))
    ensures s.cache.Keys <= Step(s, e).cache.Keys && s.writes <= Step(s, e).writes
  {
    StepGrows(s, e);
    match e
    case Begin(id, issuer) =>
      forall t | t in s.tasks ensures StageInv(Step(s, e), s.tasks[t].issuer, s.tasks[t].stage) {
        StageInvGrows(s, Step(s, e), s.tasks[t].issuer, s.tasks[t].stage);
      }
    case Continue(id) =>
      if id in s.tasks {
        AdvanceKeepsInv(s, id);
      }
  }

  lemma {:induction false} RunKeepsInv(s: State, es: seq<Event>)
    requires Inv(s)
    ensures Inv(Run(s, es))
    ensures s.cache.Keys <= Run(s, es).cache.Keys && s.writes <= Run(s, es).writes
    decreases |es|
  {
    if es != [] {
      StepKeepsInv(s, es[0]);
      RunKeepsInv(Step(s, es[0]), es[1..]);
    }
  }

  /** In every reachable state, a key set that a load has handed out was written to org_jwks. */
  lemma HandedOutWasWritten(s: State, es: seq<Event>, id: nat)
    requires Inv(s)
    requires id in Run(s, es).tasks && Run(s, es).tasks[id].stage.Done?
    ensures var t := Run(s, es).tasks[id];
            (t.issuer, Serialize(t.stage.ks)) in Run(s, es).writes && t.issuer in Run(s, es).table
  {
    RunKeepsInv(s, es);
  }

  // ── A load that starts after another has finished ─────────────────────────

  predicate NeverMisses(s: State, id: nat, issuer: string) {
    && issuer in s.cache
    && (id in s.tasks && s.tasks[id].issuer == issuer ==> s.tasks[id].stage.Started? || s.tasks[id].stage.Done?)
  }

  lemma {:induction false} NeverMissesIsStable(s: State, es: seq<Event>, id: nat, issuer: string)
    requires NeverMisses(s, id, issuer)
    ensures NeverMisses(Run(s, es), id, issuer)
    decreases |es|
  {
    if es != [] {
      NeverMissesIsStable(Step(s, es[0]), es[1..], id, issuer);
    }
  }

  /** Once some load of the issuer has finished, a load that starts later never queries,
      generates or writes, whatever else is still under way. */
  lemma LaterLoadNeverGenerates(s: State, es: seq<Event>, finished: nat, later: nat)
    requires Inv(s)
    requires finished in s.tasks && s.tasks[finished].stage.Done? && later !in s.tasks
    ensures var r := Run(s, es);
            later in r.tasks && r.tasks[later].issuer == s.tasks[finished].issuer ==>
              r.tasks[later].stage.Started? || r.tasks[later].stage.Done?
  {
    NeverMissesIsStable(s, es, later, s.tasks[finished].issuer);
  }

  // ── When do cache and table agree? ────────────────────────────────────────

  /** Can this load no longer write, and cache nothing but `row`? */
  predicate Harmless(stage: Stage, row: Row) {
    match stage
    case Read(Some(r)) => r == row
    case Read(None) => false
    case Generated(_) => false
    case Stored(ks) => Serialize(ks) == row
    case _ => true
  }

  /** The issuer's row is stored, and no load that found none, or another, is still on its way. */
  predicate Settled(s: State, issuer: string, row: Row) {
    && issuer in s.table && s.table[issuer] == row
    && (issuer in s.cache ==> Serialize(s.cache[issuer]) == row)
    && (forall id :: id in s.tasks && s.tasks[id].issuer == issuer ==> Harmless(s.tasks[id].stage, row))
  }

  lemma {:induction false} SettledIsStable(s: State, es: seq<Event>, issuer: string, row: Row)
    requires Settled(s, issuer, row)
    ensures Settled(Run(s, es), issuer, row)
    decreases |es|
  {
    if es != [] {
      SettledIsStable(Step(s, es[0]), es[1..], issuer, row);
    }
  }

  predicate FinishedBetween(s: State, r: State, id: nat, issuer: string) {
    && id in r.tasks && r.tasks[id].issuer == issuer && r.tasks[id].stage.Done?
    && (id in s.tasks ==> !s.tasks[id].stage.Done?)
  }

  /** After these events, table and cache have this row's key set, and if this load finished
      meanwhile, it handed this key set out. */
  predicate Serves(s: State, es: seq<Event>, issuer: string, row: Row, id: nat) {
    var r := Run(s, es);
    && issuer in r.table && r.table[issuer] == row
    && (issuer in r.cache ==> Serialize(r.cache[issuer]) == row)
    && (FinishedBetween(s, r, id, issuer) ==> Serialize(r.tasks[id].stage.ks) == row)
  }

  /** However loads overlap from now on, the issuer has one key set. */
  ghost predicate OneKeySet(s: State, issuer: string, row: Row) {
    forall es, id :: Serves(s, es, issuer, row, id)
  }

  lemma SettledServesOneKeySet(s: State, es: seq<Event>, issuer: string, row: Row, id: nat)
    requires Settled(s, issuer, row)
    ensures Serves(s, es, issuer, row, id)
  {
    SettledIsStable(s, es, issuer, row);
    if id !in s.tasks || !s.tasks[id].stage.Done? {
      FinishesWithRow(s, es, issuer, row, id);
    }
  }

  lemma {:induction false} FinishesWithRow(s: State, es: seq<Event>, issuer: string, row: Row, id: nat)
    requires Settled(s, issuer, row)
    requires id in s.tasks && s.tasks[id].stage.Done? && s.tasks[id].issuer == issuer ==>
               Serialize(s.tasks[id].stage.ks) == row
    ensures var r := Run(s, es);
            id in r.tasks && r.tasks[id].issuer == issuer && r.tasks[id].stage.Done? ==>
              Serialize(r.tasks[id].stage.ks) == row
    decreases |es|
  {
    if es != [] {
      SettledIsStable(s, [es[0]], issuer, row);
      assert Run(s, [es[0]]) == Step(s, es[0]);
      FinishesWithRow(Step(s, es[0]), es[1..], issuer, row, id);
    }
  }

  /** A generated key set is neither stored yet nor generated by two loads. */
  ghost predicate Fresh(s: State) {
    && (forall i :: i in s.table ==> s.table[i].signing.id < s.made)
    && (forall id :: Generates(s, id) ==> s.tasks[id].stage.ks.signing.id < s.made)
    && (forall id, i :: Generates(s, id) && i in s.table ==>
          s.tasks[id].stage.ks.signing.id != s.table[i].signing.id)
    && (forall id, other :: Generates(s, id) && Generates(s, other) && id != other ==>
          s.tasks[id].stage.ks.signing.id != s.tasks[other].stage.ks.signing.id)
  }

  predicate Generates(s: State, id: nat) {
    id in s.tasks && s.tasks[id].stage.Generated?
  }

  lemma NoneGeneratedKeepsFresh(s: State, r: State)
    requires Fresh(s) && r.table == s.table && r.made >= s.made
    requires forall id :: Generates(r, id) ==> Generates(s, id) && r.tasks[id] == s.tasks[id]
    ensures Fresh(r)
  {
  }

  lemma GeneratingKeepsFresh(s: State, id: nat)
    requires Fresh(s) && id in s.tasks && s.tasks[id].stage == Read(None)
    ensures Fresh(Advance(s, id))
  {
    var r := Advance(s, id);
    assert r.tasks[id].stage.ks.signing.id == s.made;
    assert forall other :: Generates(r, other) && other != id ==> Generates(s, other) && r.tasks[other] == s.tasks[other];
  }

  lemma WritingKeepsFresh(s: State, id: nat)
    requires Fresh(s) && Generates(s, id)
    ensures Fresh(Advance(s, id))
  {
    var r := Advance(s, id);
    assert forall other :: Generates(r, other) ==> other != id && Generates(s, other) && r.tasks[other] == s.tasks[other];
  }

  lemma StepKeepsFresh(s: State, e: Event)
    requires Fresh(s)
    ensures Fresh(Step(s, e))
  {
    if e.Continue? && Generates(s, e.task) {
      WritingKeepsFresh(s, e.task);
    } else if e.Continue? && e.task in s.tasks && s.tasks[e.task].stage == Read(None) {
      GeneratingKeepsFresh(s, e.task);
    } else {
      NoneGeneratedKeepsFresh(s, Step(s, e));
    }
  }

  /** In every reachable state generated key sets are new. */
  lemma {:induction false} RunKeepsFresh(s: State, es: seq<Event>)
    requires Fresh(s)
    ensures Fresh(Run(s, es))
    decreases |es|
  {
    if es != [] {
      StepKeepsFresh(s, es[0]);
      RunKeepsFresh(Step(s, es[0]), es[1..]);
    }
  }

  /** A load that is not harmless needs at most two more steps to cache or store another key set. */
  lemma HarmfulLoadBreaks(s: State, issuer: string, row: Row, id: nat)
    requires Fresh(s) && issuer in s.table && s.table[issuer] == row
    requires id in s.tasks && s.tasks[id].issuer == issuer && !Harmless(s.tasks[id].stage, row)
    ensures !Serves(s, [Continue(id)], issuer, row, id) || !Serves(s, [Continue(id), Continue(id)], issuer, row, id)
  {
    var c := Continue(id);
    assert Run(s, [c]) == Step(s, c);
    if s.tasks[id].stage == Read(None) {
      RunFirst(s, c, [c]);
      assert [c] + [c] == [c, c] && Run(Step(s, c), [c]) == Step(Step(s, c), c);
    }
  }

  /** Cache, table and all loads keep to one key set, however loads overlap, exactly from the settled
      states on. */
  lemma OneKeySetExactlyWhenSettled(s: State, issuer: string, row: Row)
    requires Fresh(s)
    ensures OneKeySet(s, issuer, row) <==> Settled(s, issuer, row)
  {
    if Settled(s, issuer, row) {
      forall es, id ensures Serves(s, es, issuer, row, id) {
        SettledServesOneKeySet(s, es, issuer, row, id);
      }
    }
    if OneKeySet(s, issuer, row) {
      assert Serves(s, [], issuer, row, 0) && Run(s, []) == s;
      forall id | id in s.tasks && s.tasks[id].issuer == issuer ensures Harmless(s.tasks[id].stage, row) {
        if !Harmless(s.tasks[id].stage, row) {
          HarmfulLoadBreaks(s, issuer, row, id);
        }
      }
    }
  }

  lemma RunFirst(s: State, e: Event, es: seq<Event>)
    ensures Run(s, [e] + es) == Run(Step(s, e), es)
  {
  }

  /** The events of one load that runs to its end: check, query, resume, write, finish. */
  function WholeLoad(id: nat, issuer: string): seq<Event> {
    [Begin(id, issuer)] + ([Continue(id)] + ([Continue(id)] + ([Continue(id)] + ([Continue(id)] + [Continue(id)]))))
  }

  function With(s: State, id: nat, issuer: string, stage: Stage): State {
    s.(tasks := s.tasks[id := Task(issuer, stage)])
  }

  lemma FirstLoadReads(s: State, id: nat, issuer: string)
    requires id !in s.tasks && issuer !in s.cache && issuer !in s.table
    ensures Step(s, Begin(id, issuer)) == With(s, id, issuer, Started)
    ensures Step(With(s, id, issuer, Started), Continue(id)) == With(s, id, issuer, Missed)
    ensures Step(With(s, id, issuer, Missed), Continue(id)) == With(s, id, issuer, Read(None))
  {
  }

  lemma FirstLoadWrites(s: State, id: nat, issuer: string)
    requires issuer !in s.cache && forall t :: t in s.tasks ==> s.tasks[t].issuer != issuer
    ensures var c := Continue(id);
            var r := Step(Step(Step(With(s, id, issuer, Read(None)), c), c), c);
            && id in r.tasks && r.tasks[id].stage.Done?
            && Settled(r, issuer, Serialize(r.tasks[id].stage.ks))
  {
    assert Step(With(s, id, issuer, Read(None)), Continue(id)).tasks[id]
           == Task(issuer, Generated(NewKeySet(Scoped(s.org, issuer), s.made)));
  }

  /** A first load that no other load of the issuer overlaps leaves a settled state. */
  lemma FirstLoadAloneSettles(s: State, id: nat, issuer: string)
    requires id !in s.tasks && issuer !in s.cache && issuer !in s.table
    requires forall t :: t in s.tasks ==> s.tasks[t].issuer != issuer
    ensures var r := Run(s, WholeLoad(id, issuer));
            && id in r.tasks && r.tasks[id].stage.Done?
            && Settled(r, issuer, Serialize(r.tasks[id].stage.ks))
  {
    var c := Continue(id);
    var read := With(s, id, issuer, Read(None));
    FirstLoadReads(s, id, issuer);
    FirstLoadWrites(s, id, issuer);
    RunFirst(s, Begin(id, issuer), [c] + ([c] + ([c] + ([c] + [c]))));
    RunFirst(With(s, id, issuer, Started), c, [c] + ([c] + ([c] + [c])));
    RunFirst(With(s, id, issuer, Missed), c, [c] + ([c] + [c]));
    RunFirst(read, c, [c] + [c]);
    RunFirst(Step(read, c), c, [c]);
    assert Run(Step(Step(read, c), c), [c]) == Step(Step(Step(read, c), c), c);
  }

  function Idle(org: string): State {
    State(org, map[], map[], 0, map[], [])
  }

  /** Two loads of one issuer, 0 and 1, at the given stages; nothing is cached yet. */
  function Two(org: string, issuer: string, a: Stage, b: Stage, made: nat, writes: seq<(string, Row)>): State {
    State(org, map[], if writes == [] then map[] else map[issuer := writes[|writes| - 1].1], made,
          map[0 := Task(issuer, a), 1 := Task(issuer, b)], writes)
  }

  function Turn(s: State): State {
    Step(Step(s, Continue(0)), Continue(1))
  }

  lemma RunTurn(s: State, es: seq<Event>)
    ensures Run(s, [Continue(0)] + ([Continue(1)] + es)) == Run(Turn(s), es)
  {
  }

  lemma BothMiss(org: string, issuer: string)
    ensures Turn(Two(org, issuer, Started, Started, 0, [])) == Two(org, issuer, Missed, Missed, 0, [])
    ensures Turn(Two(org, issuer, Missed, Missed, 0, [])) == Two(org, issuer, Read(None), Read(None), 0, [])
  {
  }

  lemma BothGenerate(org: string, issuer: string, first: KeySet, second: KeySet)
    requires first == NewKeySet(Scoped(org, issuer), 0) && second == NewKeySet(Scoped(org, issuer), 6)
    ensures Turn(Two(org, issuer, Read(None), Read(None), 0, []))
            == Two(org, issuer, Generated(first), Generated(second), 12, [])
  {
  }

  lemma BothWrite(org: string, issuer: string, first: KeySet, second: KeySet)
    ensures Turn(Two(org, issuer, Generated(first), Generated(second), 12, []))
            == Two(org, issuer, Stored(first), Stored(second), 12,
                   [(issuer, Serialize(first)), (issuer, Serialize(second))])
  {
  }

  lemma LastWriterCachesFirst(s: State, issuer: string, first: KeySet, second: KeySet)
    requires s == Two(s.org, issuer, Stored(first), Stored(second), s.made, s.writes)
    ensures var r := Step(Step(s, Continue(1)), Continue(0));
            && r.cache == map[issuer := first] && r.table == s.table
            && r.tasks == map[0 := Task(issuer, Done(first)), 1 := Task(issuer, Done(second))]
  {
  }

  /** Two overlapping first loads can end with different key sets in cache and table: both
      query before either writes, and the last to write is the first to cache. */
  lemma OverlappingFirstLoadsDisagree(org: string, issuer: string)
    ensures exists es :: var s := Run(Idle(org), es);
              && (forall id :: id in s.tasks ==> s.tasks[id].stage.Done?)
              && issuer in s.cache && issuer in s.table
              && Serialize(s.cache[issuer]) != s.table[issuer]
  {
    var c, d := Continue(0), Continue(1);
    var first, second := NewKeySet(Scoped(org, issuer), 0), NewKeySet(Scoped(org, issuer), 6);
    var closing := [d] + [c];
    var turns := [c] + ([d] + ([c] + ([d] + ([c] + ([d] + ([c] + ([d] + closing)))))));
    var begun := Two(org, issuer, Started, Started, 0, []);
    var written := Two(org, issuer, Stored(first), Stored(second), 12,
                       [(issuer, Serialize(first)), (issuer, Serialize(second))]);
    BothMiss(org, issuer);
    BothGenerate(org, issuer, first, second);
    BothWrite(org, issuer, first, second);
    assert Run(begun, turns) == Run(written, closing) by {
      RunTurn(begun, [c] + ([d] + ([c] + ([d] + ([c] + ([d] + closing))))));
      RunTurn(Two(org, issuer, Missed, Missed, 0, []), [c] + ([d] + ([c] + ([d] + closing))));
      RunTurn(Two(org, issuer, Read(None), Read(None), 0, []), [c] + ([d] + closing));
      RunTurn(Two(org, issuer, Generated(first), Generated(second), 12, []), closing);
    }
    RunFirst(written, d, [c]);
    RunFirst(Step(written, d), c, []);
    assert [c] + [] == [c];
    LastWriterCachesFirst(written, issuer, first, second);
    BothBegin(org, issuer, turns);
    assert Serialize(first).signing.id != Serialize(second).signing.id;
    var s := Run(Idle(org), [Begin(0, issuer)] + ([Begin(1, issuer)] + turns));
    assert s.cache[issuer] == first && s.table[issuer] == Serialize(second);
  }

  lemma BothBegin(org: string, issuer: string, es: seq<Event>)
    ensures Run(Idle(org), [Begin(0, issuer)] + ([Begin(1, issuer)] + es))
            == Run(Two(org, issuer, Started, Started, 0, []), es)
  {
  }
}
