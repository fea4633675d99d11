/** The four mapping tables of one tag service -- current, deleted, pending and petitioned -- and the
    five operations that write them: remote add, remote delete, stage, commit and local add.

    A table is the set of its (tag, hash) rows.  The value type is generic in the row, so that the same
    algebra describes the stored tables, whose rows hold ids, and the tables of the replayed log, whose
    rows hold tag text and file hashes. */
module MappingTables {
  import opened Interning

  datatype Tables<P(==)> = Tables(current: set<P>, deleted: set<P>, pending: set<P>, petitioned: set<P>)

  /** One row of a mappings update: a repository tag id and the repository hash ids it applies to. */
  datatype MappingRow = MappingRow(serviceTagId: int, serviceHashIds: seq<int>)

  function Empty<P(==)>(): Tables<P> {
    Tables({}, {}, {}, {})
  }

  /** What holds of the tables between any two transactions. */
  predicate Consistent<P(==)>(t: Tables<P>) {
    && t.current !! t.deleted
    && t.current !! t.pending
    && t.petitioned <= t.current
  }

  /** Every pair that has ever been mentioned and not merely forgotten. */
  function Remembered<P(==)>(t: Tables<P>): set<P> {
    t.current + t.pending + t.deleted
  }

  // ----- The operations as functions on whole tables -----

  function RemoteUpdate<P(==)>(t: Tables<P>, adds: set<P>, deletes: set<P>): Tables<P> {
    Tables((t.current + adds) - deletes,
           (t.deleted - adds) + deletes,
           t.pending - adds,
           t.petitioned - deletes)
  }

  function Stage<P(==)>(t: Tables<P>, pairs: set<P>): Tables<P> {
    Tables(t.current, t.deleted - pairs, t.pending + (pairs - t.current), t.petitioned - pairs)
  }

  function Commit<P(==)>(t: Tables<P>): Tables<P> {
    Tables(t.current + t.pending, t.deleted - t.pending, {}, t.petitioned - t.pending)
  }

  function LocalAdd<P(==)>(t: Tables<P>, pairs: set<P>): Tables<P> {
    Tables(t.current + pairs, t.deleted - pairs, t.pending - pairs, t.petitioned - pairs)
  }

  datatype Op<P(==)> =
    | RemoteOp(adds: set<P>, deletes: set<P>)
    | StageOp(pairs: set<P>)
    | CommitOp
    | LocalAddOp(pairs: set<P>)

  function Do<P(==)>(t: Tables<P>, op: Op<P>): Tables<P> {
    match op
    case RemoteOp(adds, deletes) => RemoteUpdate(t, adds, deletes)
    case StageOp(pairs) => Stage(t, pairs)
    case CommitOp => Commit(t)
    case LocalAddOp(pairs) => LocalAdd(t, pairs)
  }

  function Run<P(==)>(t: Tables<P>, ops: seq<Op<P>>): Tables<P>
    decreases |ops|
  {
    if ops == [] then t else Run(Do(t, ops[0]), ops[1..])
  }

  // ----- Safety over every interleaving -----

  /** Whatever the order in which the five operations reach the tables, current stays disjoint from
      deleted and pending, petitioned stays inside current, and no pair is ever forgotten. */
  lemma {:induction false} RunKeepsConsistent<P>(t: Tables<P>, ops: seq<Op<P>>)
    requires Consistent(t)
    ensures Consistent(Run(t, ops))
    ensures Remembered(t) <= Remembered(Run(t, ops))
    decreases |ops|
  {
    if ops != [] {
      RunKeepsConsistent(Do(t, ops[0]), ops[1..]);
    }
  }

  /** Pending and deleted may overlap: a remote delete does not touch pending. */
  lemma PendingAndDeletedMayOverlap<P>(p: P)
    ensures var t := Run(Empty<P>(), [StageOp({p}), RemoteOp({}, {p})]);
            Consistent(t) && p in t.pending && p in t.deleted
  {
    var staged := Stage(Empty<P>(), {p});
    assert Run(staged, [RemoteOp({}, {p})]) == RemoteUpdate(staged, {}, {p});
    assert [StageOp({p}), RemoteOp({}, {p})][1..] == [RemoteOp({}, {p})];
  }

  /** Exactly the remote deletes of a pair that is pending, and that the same update does not add, make the two
      overlap; the other operations never do. */
  lemma StaysApartIff<P>(t: Tables<P>, op: Op<P>)
    requires t.pending !! t.deleted
    ensures Do(t, op).pending !! Do(t, op).deleted <==> SparesPending(t, op)
  {
    if op.RemoteOp? && !SparesPending(t, op) {
      var p :| p in t.pending - op.adds && p in op.deletes;
      assert p in Do(t, op).pending && p in Do(t, op).deleted;
    }
  }

  /** The operation deletes no pair that is pending and stays so. */
  predicate SparesPending<P(==)>(t: Tables<P>, op: Op<P>) {
    op.RemoteOp? ==> (t.pending - op.adds) !! op.deletes
  }

  lemma {:induction false} RunSnoc<P>(t: Tables<P>, ops: seq<Op<P>>, n: nat)
    requires n < |ops|
    ensures Run(t, ops[..n + 1]) == Do(Run(t, ops[..n]), ops[n])
    decreases n
  {
    if n == 0 {
      assert ops[..1][1..] == [] && Run(Do(t, ops[0]), []) == Do(t, ops[0]);
    } else {
      RunSnoc(Do(t, ops[0]), ops[1..], n - 1);
      assert ops[..n + 1][1..] == ops[1..][..n] && ops[..n][1..] == ops[1..][..n - 1];
    }
  }

  /** Over a run, pending and deleted are disjoint throughout exactly when every remote update spares what is
      pending when it arrives. */
  lemma StaysApartThroughoutIff<P>(t: Tables<P>, ops: seq<Op<P>>)
    requires t.pending !! t.deleted
    ensures (forall n | 0 <= n <= |ops| :: Run(t, ops[..n]).pending !! Run(t, ops[..n]).deleted)
       <==> (forall n | 0 <= n < |ops| :: SparesPending(Run(t, ops[..n]), ops[n]))
  {
    if forall n | 0 <= n <= |ops| :: Run(t, ops[..n]).pending !! Run(t, ops[..n]).deleted {
      forall n | 0 <= n < |ops| ensures SparesPending(Run(t, ops[..n]), ops[n]) {
        RunSnoc(t, ops, n);
        StaysApartIff(Run(t, ops[..n]), ops[n]);
        assert Run(t, ops[..n + 1]).pending !! Run(t, ops[..n + 1]).deleted;
      }
    }
    if forall n | 0 <= n < |ops| :: SparesPending(Run(t, ops[..n]), ops[n]) {
      forall n | 0 <= n <= |ops| ensures Run(t, ops[..n]).pending !! Run(t, ops[..n]).deleted {
        SparedStaysApart(t, ops, n);
      }
    }
  }

  lemma {:induction false} SparedStaysApart<P>(t: Tables<P>, ops: seq<Op<P>>, n: nat)
    requires t.pending !! t.deleted && n <= |ops|
    requires forall k | 0 <= k < |ops| :: SparesPending(Run(t, ops[..k]), ops[k])
    ensures Run(t, ops[..n]).pending !! Run(t, ops[..n]).deleted
  {
    hide SparesPending;
    if n == 0 {
      assert ops[..0] == [];
    } else {
      SparedStaysApart(t, ops, n - 1);
      StaysApartIff(Run(t, ops[..n - 1]), ops[n - 1]);
      RunSnoc(t, ops, n - 1);
    }
  }

  /** A repeated update changes nothing the first did not. */
  lemma RemoteUpdateTwice<P>(t: Tables<P>, adds: set<P>, deletes: set<P>)
    ensures RemoteUpdate(RemoteUpdate(t, adds, deletes), adds, deletes) == RemoteUpdate(t, adds, deletes)
  {
    var once := RemoteUpdate(t, adds, deletes);
    var twice := RemoteUpdate(once, adds, deletes);
    assert twice.current == once.current;
    assert twice.deleted == once.deleted;
  }

  // ----- Upload and commit -----

  /** A commit moves exactly the pending pairs to current, and |current| grows by exactly that many. */
  lemma CommitMovesPending<P>(t: Tables<P>)
    requires Consistent(t)
    ensures Commit(t).current - t.current == t.pending
    ensures |Commit(t).current| == |t.current| + |t.pending|
  {
  }

  /** In every interleaving between listing the pending pairs for upload and committing them, each
      uploaded pair is in current or deleted right after the commit. */
  lemma UploadedPairsSettle<P>(listed: Tables<P>, between: seq<Op<P>>)
    requires Consistent(listed)
    ensures var done := Commit(Run(listed, between));
            Consistent(done) && done.pending == {} && listed.pending <= done.current + done.deleted
  {
    RunKeepsConsistent(listed, between);
    var done := Commit(Run(listed, between));
    assert Remembered(listed) <= Remembered(Run(listed, between)) <= Remembered(done);
  }

  /** The operation takes a pending pair out of pending. */
  predicate Clears<P(==)>(op: Op<P>, p: P) {
    match op
    case RemoteOp(adds, _) => p in adds
    case StageOp(_) => false
    case CommitOp => true
    case LocalAddOp(pairs) => p in pairs
  }

  /** No operation from the n-th on clears the pair. */
  predicate Kept<P(==)>(ops: seq<Op<P>>, n: nat, p: P) {
    forall k | n <= k < |ops| :: !Clears(ops[k], p)
  }

  /** The n-th operation stages the pair, and the pair is not current when it does. */
  predicate StagedAt<P(==)>(t: Tables<P>, ops: seq<Op<P>>, n: nat, p: P)
    requires n < |ops|
  {
    ops[n].StageOp? && p in ops[n].pairs && p !in Run(t, ops[..n]).current
  }

  /** Some operation stages the pair and none after it clears it again. */
  ghost predicate LeftStaged<P>(t: Tables<P>, ops: seq<Op<P>>, p: P) {
    exists n: nat :: n < |ops| && StagedAt(t, ops, n, p) && Kept(ops, n + 1, p)
  }

  /** Where a pending pair comes from: it was pending and was kept, or it was staged and kept since. */
  lemma {:induction false} PendingOrigin<P>(t: Tables<P>, ops: seq<Op<P>>, p: P)
    ensures p in Run(t, ops).pending <==> (p in t.pending && Kept(ops, 0, p)) || LeftStaged(t, ops, p)
    decreases |ops|
  {
    if ops != [] {
      var init, last, m := ops[..|ops| - 1], ops[|ops| - 1], |ops| - 1;
      PendingOrigin(t, init, p);
      RunSnoc(t, ops, m);
      assert ops[..m + 1] == ops && ops[..m] == init;
      var before := Run(t, init);
      assert p in Run(t, ops).pending <==> (p in before.pending && !Clears(last, p)) || StagedAt(t, ops, m, p);
      assert Kept(ops, 0, p) <==> Kept(init, 0, p) && !Clears(last, p);
      StagedLast(t, ops, p);
    }
  }

  lemma StagedLast<P>(t: Tables<P>, ops: seq<Op<P>>, p: P)
    requires ops != []
    ensures var m := |ops| - 1;
            LeftStaged(t, ops, p) <==> (LeftStaged(t, ops[..m], p) && !Clears(ops[m], p)) || StagedAt(t, ops, m, p)
  {
    var m := |ops| - 1;
    var init := ops[..m];
    if LeftStaged(t, ops, p) {
      var n: nat :| n < |ops| && StagedAt(t, ops, n, p) && Kept(ops, n + 1, p);
      if n < m {
        assert init[..n] == ops[..n] && StagedAt(t, init, n, p) && Kept(init, n + 1, p);
      }
    }
    if LeftStaged(t, init, p) && !Clears(ops[m], p) {
      var n: nat :| n < |init| && StagedAt(t, init, n, p) && Kept(init, n + 1, p);
      assert init[..n] == ops[..n] && StagedAt(t, ops, n, p) && Kept(ops, n + 1, p);
    }
    if StagedAt(t, ops, m, p) {
      assert Kept(ops, m + 1, p);
    }
  }

  /** Nothing is committed without having been uploaded exactly when what is pending at the commit had all been
      listed; that is, when every pair staged meanwhile was listed or has been cleared again. */
  lemma NothingUnsentIff<P>(listed: Tables<P>, between: seq<Op<P>>)
    requires Consistent(listed)
    ensures var before := Run(listed, between);
            && (Commit(before).current - before.current <= listed.pending <==> before.pending <= listed.pending)
            && (before.pending <= listed.pending <==>
                  forall p | LeftStaged(listed, between, p) :: p in listed.pending)
  {
    RunKeepsConsistent(listed, between);
    var before := Run(listed, between);
    CommitMovesPending(before);
    if before.pending <= listed.pending {
      forall p | LeftStaged(listed, between, p) ensures p in listed.pending {
        PendingOrigin(listed, between, p);
      }
    }
    if forall p | LeftStaged(listed, between, p) :: p in listed.pending {
      forall p | p in before.pending ensures p in listed.pending {
        PendingOrigin(listed, between, p);
      }
    }
  }

  /** So it is enough that nothing is staged meanwhile but pairs that were listed or are current already. */
  lemma ListedStagesSendAll<P>(listed: Tables<P>, between: seq<Op<P>>)
    requires Consistent(listed)
    requires forall n | 0 <= n < |between| && between[n].StageOp? ::
               between[n].pairs <= listed.pending + Run(listed, between[..n]).current
    ensures Commit(Run(listed, between)).current - Run(listed, between).current <= listed.pending
  {
    NothingUnsentIff(listed, between);
    forall p | LeftStaged(listed, between, p) ensures p in listed.pending {
      var n: nat :| n < |between| && StagedAt(listed, between, n, p) && Kept(between, n + 1, p);
    }
  }

  /** The commit moves exactly the uploaded pairs when, and only when, nothing unsent is left staged and every
      uploaded pair was kept or staged again: then pending is the table that was listed. */
  lemma CommitMovesUploadedIff<P>(listed: Tables<P>, between: seq<Op<P>>)
    requires Consistent(listed)
    ensures var before := Run(listed, between);
            && (Commit(before).current - before.current == listed.pending <==> before.pending == listed.pending)
            && (before.pending == listed.pending <==>
                  && (forall p | LeftStaged(listed, between, p) :: p in listed.pending)
                  && forall p | p in listed.pending :: Kept(between, 0, p) || LeftStaged(listed, between, p))
  {
    NothingUnsentIff(listed, between);
    RunKeepsConsistent(listed, between);
    CommitMovesPending(Run(listed, between));
    forall p | p in listed.pending
      ensures p in Run(listed, between).pending <==> Kept(between, 0, p) || LeftStaged(listed, between, p)
    {
      PendingOrigin(listed, between, p);
    }
  }

  /** The condition above can fail: a pair staged after the listing is committed without having been
      uploaded. */
  lemma StagedDuringUploadIsCommittedUnsent<P>(p: P)
    ensures var listed := Empty<P>();
            var done := Commit(Run(listed, [StageOp({p})]));
            p !in listed.pending && p in done.current
  {
    var listed := Empty<P>();
    assert Run(Stage(listed, {p}), []) == Stage(listed, {p});
    assert [StageOp({p})][1..] == [];
  }

  // ----- The pairs a list of update rows stands for -----

  /** The row's tag and every one of its hashes are defined.  A row with an unknown tag does not resolve
      even when it lists no hash. */
  predicate Resolves<T, H>(row: MappingRow, tagOf: map<int, T>, hashOf: map<int, H>) {
    && row.serviceTagId in tagOf
    && forall i | 0 <= i < |row.serviceHashIds| :: row.serviceHashIds[i] in hashOf
  }

  predicate Resolvable<T, H>(rows: seq<MappingRow>, tagOf: map<int, T>, hashOf: map<int, H>) {
    forall row | row in rows :: Resolves(row, tagOf, hashOf)
  }

  function Pairs<T(==), H(==)>(rows: seq<MappingRow>, tagOf: map<int, T>, hashOf: map<int, H>): set<(T, H)> {
    set row, x | row in rows && row.serviceTagId in tagOf && x in row.serviceHashIds && x in hashOf
      :: (tagOf[row.serviceTagId], hashOf[x])
  }

  /** Neither the order of the rows nor repeated rows matter. */
  lemma RowOrderIrrelevant<T, H>(left: seq<MappingRow>, right: seq<MappingRow>,
                                 tagOf: map<int, T>, hashOf: map<int, H>)
    requires forall row :: row in left <==> row in right
    ensures Resolvable(left, tagOf, hashOf) <==> Resolvable(right, tagOf, hashOf)
    ensures Pairs(left, tagOf, hashOf) == Pairs(right, tagOf, hashOf)
  {
  }

  /** Some row names the pair: its tag id stands for the pair's tag and one of its hash ids for the pair's hash. */
  predicate Gives<T(==), H(==)>(rows: seq<MappingRow>, tagOf: map<int, T>, hashOf: map<int, H>, p: (T, H)) {
    exists row, x | row in rows && x in row.serviceHashIds ::
      row.serviceTagId in tagOf && tagOf[row.serviceTagId] == p.0 && x in hashOf && hashOf[x] == p.1
  }

  lemma PairsAreGiven<T, H>(rows: seq<MappingRow>, tagOf: map<int, T>, hashOf: map<int, H>, p: (T, H))
    ensures p in Pairs(rows, tagOf, hashOf) <==> Gives(rows, tagOf, hashOf, p)
  {
  }

  // ----- Where one pair is after each operation -----

  /** The pair is where it was, in all four tables. */
  predicate Untouched<P(==)>(before: Tables<P>, after: Tables<P>, p: P) {
    && (p in after.current <==> p in before.current) && (p in after.deleted <==> p in before.deleted)
    && (p in after.pending <==> p in before.pending) && (p in after.petitioned <==> p in before.petitioned)
  }

  /** A deleted pair is deleted, and neither current nor petitioned, even if the same update adds it; a pair that is
      only added is current, neither deleted nor pending; any other stays where it was. */
  predicate Updated<P(==)>(before: Tables<P>, after: Tables<P>, p: P, added: bool, deleted: bool) {
    && (deleted ==> p in after.deleted && p !in after.current && p !in after.petitioned)
    && (added && !deleted ==> p in after.current && p !in after.deleted
                              && (p in after.petitioned <==> p in before.petitioned))
    && (added ==> p !in after.pending)
    && (!added ==> (p in after.pending <==> p in before.pending))
    && (!added && !deleted ==> Untouched(before, after, p))
  }

  /** What the rows of an update do to each pair. */
  ghost predicate RowsApplied(before: Tables<(int, int)>, after: Tables<(int, int)>, adds: seq<MappingRow>,
                              deletes: seq<MappingRow>, tagMap: map<int, int>, hashMap: map<int, int>)
  {
    forall p: (int, int) ::
      Updated(before, after, p, Gives(adds, tagMap, hashMap, p), Gives(deletes, tagMap, hashMap, p))
  }

  /** A staged pair is neither deleted nor petitioned, and pending unless it is current. */
  predicate StagedIn<P(==)>(before: Tables<P>, after: Tables<P>, p: P) {
    && p !in after.deleted && p !in after.petitioned
    && (p in after.current <==> p in before.current)
    && (p in after.pending <==> p in before.pending || p !in before.current)
  }

  /** A pending pair becomes current and nothing else; any other stays where it was. */
  predicate CommittedIn<P(==)>(before: Tables<P>, after: Tables<P>, p: P) {
    if p in before.pending then
      p in after.current && p !in after.pending && p !in after.deleted && p !in after.petitioned
    else Untouched(before, after, p)
  }

  /** An added pair is current and nothing else. */
  predicate OnlyCurrent<P(==)>(after: Tables<P>, p: P) {
    p in after.current && p !in after.pending && p !in after.deleted && p !in after.petitioned
  }

  lemma RemoteUpdateMoves<P>(t: Tables<P>, adds: set<P>, deletes: set<P>, p: P)
    ensures Updated(t, RemoteUpdate(t, adds, deletes), p, p in adds, p in deletes)
  {
  }

  lemma StageMoves<P>(t: Tables<P>, pairs: set<P>, p: P)
    ensures if p in pairs then StagedIn(t, Stage(t, pairs), p) else Untouched(t, Stage(t, pairs), p)
  {
  }

  // ----- The tables of one service, updated row by row -----

  datatype MappingError = MissingTagDefinition(serviceTagId: int) | MissingHashDefinition(serviceHashId: int)
  datatype Resolved = Resolved(tagId: int, hashIds: seq<int>) | Unresolved(error: MappingError)

  /** The local ids of a row that resolves. */
  function HashIds(row: MappingRow, hashMap: map<int, int>): (ids: seq<int>)
    requires forall i | 0 <= i < |row.serviceHashIds| :: row.serviceHashIds[i] in hashMap
  {
    seq(|row.serviceHashIds|, i requires 0 <= i < |row.serviceHashIds| => hashMap[row.serviceHashIds[i]])
  }

  /** The first id of the row that is not defined, its tag before its hashes. */
  ghost predicate Misses(row: MappingRow, error: MappingError, tagMap: map<int, int>, hashMap: map<int, int>) {
    match error
    case MissingTagDefinition(id) => id == row.serviceTagId && id !in tagMap
    case MissingHashDefinition(id) =>
      && row.serviceTagId in tagMap && id !in hashMap
      && exists k :: 0 <= k < |row.serviceHashIds| && row.serviceHashIds[k] == id
                     && forall j | 0 <= j < k :: row.serviceHashIds[j] in hashMap
  }

  /** The error of the first row that does not resolve. */
  ghost predicate FirstMiss(rows: seq<MappingRow>, error: MappingError, tagMap: map<int, int>, hashMap: map<int, int>) {
    exists i :: 0 <= i < |rows| && Misses(rows[i], error, tagMap, hashMap) && Resolvable(rows[..i], tagMap, hashMap)
  }

  /** Looks up one row's tag first and then its hashes in order; the first miss is reported. */
  method NormalizeRow(row: MappingRow, tagMap: map<int, int>, hashMap: map<int, int>) returns (r: Resolved)
    ensures r.Resolved? <==> Resolves(row, tagMap, hashMap)
    ensures r.Resolved? ==> r == Resolved(tagMap[row.serviceTagId], HashIds(row, hashMap))
    ensures r.Unresolved? ==> Misses(row, r.error, tagMap, hashMap)
  {
    if row.serviceTagId !in tagMap {
      return Unresolved(MissingTagDefinition(row.serviceTagId));
    }
    var hashIds := [];
    for i := 0 to |row.serviceHashIds|
      invariant |hashIds| == i
      invariant forall k :: 0 <= k < i ==> row.serviceHashIds[k] in hashMap
      invariant forall k :: 0 <= k < i ==> hashIds[k] == hashMap[row.serviceHashIds[k]]
    {
      if row.serviceHashIds[i] !in hashMap {
        return Unresolved(MissingHashDefinition(row.serviceHashIds[i]));
      }
      hashIds := hashIds + [hashMap[row.serviceHashIds[i]]];
    }
    assert hashIds == HashIds(row, hashMap);
    return Resolved(tagMap[row.serviceTagId], hashIds);
  }

  /** The pairs of one resolved row. */
  function RowPairs(tagId: int, hashIds: seq<int>): set<(int, int)> {
    set h | h in hashIds :: (tagId, h)
  }

  lemma RowPairsSnoc(tagId: int, hashIds: seq<int>, i: nat)
    requires i < |hashIds|
    ensures RowPairs(tagId, hashIds[..i + 1]) == RowPairs(tagId, hashIds[..i]) + {(tagId, hashIds[i])}
  {
    var shorter, longer := hashIds[..i], hashIds[..i + 1];
    assert longer == shorter + [hashIds[i]];
    assert forall h :: h in longer <==> h in shorter || h == hashIds[i];
    forall p | p in RowPairs(tagId, shorter) + {(tagId, hashIds[i])}
      ensures p in RowPairs(tagId, longer)
    {
      assert p == (tagId, p.1) && p.1 in longer;
    }
  }

  /** Staging a tag on some hashes: what becomes of its pairs, and that no other is touched. */
  ghost predicate RowStaged(t: Tables<(int, int)>, after: Tables<(int, int)>, tagId: int, hashIds: seq<int>) {
    && (forall i | 0 <= i < |hashIds| :: StagedIn(t, after, (tagId, hashIds[i])))
    && forall p: (int, int) | p.0 != tagId || p.1 !in hashIds :: Untouched(t, after, p)
  }

  lemma StagedRow(t: Tables<(int, int)>, tagId: int, hashIds: seq<int>)
    ensures RowStaged(t, Stage(t, RowPairs(tagId, hashIds)), tagId, hashIds)
  {
    var pairs := RowPairs(tagId, hashIds);
    forall i | 0 <= i < |hashIds| ensures StagedIn(t, Stage(t, pairs), (tagId, hashIds[i])) {
      RowPairsSnoc(tagId, hashIds, i);
      assert hashIds[i] in hashIds && (tagId, hashIds[i]) in pairs;
      StageMoves(t, pairs, (tagId, hashIds[i]));
    }
    forall p: (int, int) | p.0 != tagId || p.1 !in hashIds ensures Untouched(t, Stage(t, pairs), p) {
      StageMoves(t, pairs, p);
    }
  }

  lemma PairsOfPrefix(rows: seq<MappingRow>, i: nat, tagMap: map<int, int>, hashMap: map<int, int>)
    requires i < |rows| && Resolves(rows[i], tagMap, hashMap)
    ensures Pairs(rows[..i + 1], tagMap, hashMap)
         == Pairs(rows[..i], tagMap, hashMap) + RowPairs(tagMap[rows[i].serviceTagId], HashIds(rows[i], hashMap))
    ensures Resolvable(rows[..i + 1], tagMap, hashMap) <==> Resolvable(rows[..i], tagMap, hashMap)
  {
    var row := rows[i];
    var ids := HashIds(row, hashMap);
    assert rows[..i + 1] == rows[..i] + [row];
    forall p | p in RowPairs(tagMap[row.serviceTagId], ids)
      ensures p in Pairs(rows[..i + 1], tagMap, hashMap)
    {
      var k :| 0 <= k < |ids| && ids[k] == p.1;
      var x := row.serviceHashIds[k];
      assert row in rows[..i + 1] && x in row.serviceHashIds && x in hashMap;
      assert p == (tagMap[row.serviceTagId], hashMap[x]);
    }
    forall p | p in Pairs(rows[..i + 1], tagMap, hashMap)
      ensures p in Pairs(rows[..i], tagMap, hashMap) + RowPairs(tagMap[row.serviceTagId], ids)
    {
      var q, x :| q in rows[..i + 1] && q.serviceTagId in tagMap && x in q.serviceHashIds && x in hashMap
                  && p == (tagMap[q.serviceTagId], hashMap[x]);
      if q !in rows[..i] {
        var k :| 0 <= k < |row.serviceHashIds| && row.serviceHashIds[k] == x;
        assert ids[k] == p.1;
      }
    }
  }

  lemma AddsCompose<P>(t: Tables<P>, a: set<P>, b: set<P>)
    ensures RemoteUpdate(RemoteUpdate(t, a, {}), b, {}) == RemoteUpdate(t, a + b, {})
  {
  }

  lemma DeletesCompose<P>(t: Tables<P>, a: set<P>, d: set<P>, e: set<P>)
    ensures RemoteUpdate(RemoteUpdate(t, a, d), {}, e) == RemoteUpdate(t, a, d + e)
  {
  }

  lemma StagesCompose<P>(t: Tables<P>, a: set<P>, b: set<P>)
    ensures Stage(Stage(t, a), b) == Stage(t, a + b)
  {
  }

  /** The rows stored for one tag service.  The fields are the tables themselves; each method performs
      the statements of one transaction body, row by row. */
  class ServiceTables {
    var current: set<(int, int)>
    var deleted: set<(int, int)>
    var pending: set<(int, int)>
    var petitioned: set<(int, int)>

    function Value(): Tables<(int, int)>
      reads this
    {
      Tables(current, deleted, pending, petitioned)
    }

    constructor ()
      ensures Value() == Empty()
    {
      current, deleted, pending, petitioned := {}, {}, {}, {};
    }

    /** Puts back the tables of a transaction that is rolled back. */
    method Restore(saved: Tables<(int, int)>)
      modifies this
      ensures Value() == saved
    {
      current, deleted, pending, petitioned := saved.current, saved.deleted, saved.pending, saved.petitioned;
    }

    method AddPairs(tagId: int, hashIds: seq<int>)
      modifies this
      ensures Value() == RemoteUpdate(old(Value()), RowPairs(tagId, hashIds), {})
    {
      for i := 0 to |hashIds|
        invariant Value() == RemoteUpdate(old(Value()), RowPairs(tagId, hashIds[..i]), {})
      {
        var p := (tagId, hashIds[i]);
        deleted := deleted - {p};
        pending := pending - {p};
        current := current + {p};
        RowPairsSnoc(tagId, hashIds, i);
        AddsCompose(old(Value()), RowPairs(tagId, hashIds[..i]), {p});
      }
      assert hashIds[..|hashIds|] == hashIds;
    }

    method DeletePairs(tagId: int, hashIds: seq<int>)
      modifies this
      ensures Value() == RemoteUpdate(old(Value()), {}, RowPairs(tagId, hashIds))
    {
      for i := 0 to |hashIds|
        invariant Value() == RemoteUpdate(old(Value()), {}, RowPairs(tagId, hashIds[..i]))
      {
        var p := (tagId, hashIds[i]);
        current := current - {p};
        petitioned := petitioned - {p};
        deleted := deleted + {p};
        RowPairsSnoc(tagId, hashIds, i);
        DeletesCompose(old(Value()), {}, RowPairs(tagId, hashIds[..i]), {p});
      }
      assert hashIds[..|hashIds|] == hashIds;
    }

    method AddRows(rows: seq<MappingRow>, tagMap: map<int, int>, hashMap: map<int, int>)
      returns (error: Option<MappingError>)
      modifies this
      ensures error == None <==> Resolvable(rows, tagMap, hashMap)
      ensures error.Some? ==> FirstMiss(rows, error.value, tagMap, hashMap)
      ensures error == None ==> Value() == RemoteUpdate(old(Value()), Pairs(rows, tagMap, hashMap), {})
    {
      for i := 0 to |rows|
        invariant Resolvable(rows[..i], tagMap, hashMap)
        invariant Value() == RemoteUpdate(old(Value()), Pairs(rows[..i], tagMap, hashMap), {})
      {
        var r := NormalizeRow(rows[i], tagMap, hashMap);
        if r.Unresolved? {
          assert rows[i] in rows;
          return Some(r.error);
        }
        AddPairs(r.tagId, r.hashIds);
        PairsOfPrefix(rows, i, tagMap, hashMap);
        AddsCompose(old(Value()), Pairs(rows[..i], tagMap, hashMap), RowPairs(r.tagId, r.hashIds));
      }
      assert rows[..|rows|] == rows;
      return None;
    }

    method DeleteRows(rows: seq<MappingRow>, tagMap: map<int, int>, hashMap: map<int, int>)
      returns (error: Option<MappingError>)
      modifies this
      ensures error == None <==> Resolvable(rows, tagMap, hashMap)
      ensures error.Some? ==> FirstMiss(rows, error.value, tagMap, hashMap)
      ensures error == None ==> Value() == RemoteUpdate(old(Value()), {}, Pairs(rows, tagMap, hashMap))
    {
      for i := 0 to |rows|
        invariant Resolvable(rows[..i], tagMap, hashMap)
        invariant Value() == RemoteUpdate(old(Value()), {}, Pairs(rows[..i], tagMap, hashMap))
      {
        var r := NormalizeRow(rows[i], tagMap, hashMap);
        if r.Unresolved? {
          assert rows[i] in rows;
          return Some(r.error);
        }
        DeletePairs(r.tagId, r.hashIds);
        PairsOfPrefix(rows, i, tagMap, hashMap);
        DeletesCompose(old(Value()), {}, Pairs(rows[..i], tagMap, hashMap), RowPairs(r.tagId, r.hashIds));
      }
      assert rows[..|rows|] == rows;
      return None;
    }

    /** All the adds, row by row, and then all the deletes.  The call succeeds exactly when every row
        resolves, and otherwise reports the first id that is not defined; the rows already written then are left
        for the caller to roll back. */
    method ApplyMappings(adds: seq<MappingRow>, deletes: seq<MappingRow>,
                         tagMap: map<int, int>, hashMap: map<int, int>) returns (error: Option<MappingError>)
      modifies this
      ensures error == None <==> Resolvable(adds, tagMap, hashMap) && Resolvable(deletes, tagMap, hashMap)
      ensures error.Some? ==>
                FirstMiss(if Resolvable(adds, tagMap, hashMap) then deletes else adds, error.value, tagMap, hashMap)
      ensures error == None ==>
                Value() == RemoteUpdate(old(Value()), Pairs(adds, tagMap, hashMap), Pairs(deletes, tagMap, hashMap))
      ensures error == None ==> RowsApplied(old(Value()), Value(), adds, deletes, tagMap, hashMap)
    {
      hide FirstMiss, Gives, Updated, Pairs, Resolvable;
      ghost var before := Value();
      error := AddRows(adds, tagMap, hashMap);
      if error == None {
        error := DeleteRows(deletes, tagMap, hashMap);
      }
      ghost var added, deleted := Pairs(adds, tagMap, hashMap), Pairs(deletes, tagMap, hashMap);
      forall p ensures Updated(before, RemoteUpdate(before, added, deleted), p,
                               Gives(adds, tagMap, hashMap, p), Gives(deletes, tagMap, hashMap, p))
      {
        PairsAreGiven(adds, tagMap, hashMap, p);
        PairsAreGiven(deletes, tagMap, hashMap, p);
        RemoteUpdateMoves(before, added, deleted, p);
      }
    }

    /** Stages one pair; the result says whether a pending row was inserted. */
    method StagePair(tagId: int, hashId: int) returns (added: nat)
      modifies this
      ensures Value() == Stage(old(Value()), {(tagId, hashId)})
      ensures added == |pending| - |old(pending)|
    {
      var p := (tagId, hashId);
      deleted := deleted - {p};
      petitioned := petitioned - {p};
      if p in current {
        return 0;
      }
      added := if p in pending then 0 else 1;
      pending := pending + {p};
    }

    /** Stages one tag on several hashes; the result is the number of pending rows inserted. */
    method StageTag(tagId: int, hashIds: seq<int>) returns (added: nat)
      modifies this
      ensures Value() == Stage(old(Value()), RowPairs(tagId, hashIds))
      ensures RowStaged(old(Value()), Value(), tagId, hashIds)
      ensures added == |pending| - |old(pending)|
    {
      added := 0;
      for i := 0 to |hashIds|
        invariant Value() == Stage(old(Value()), RowPairs(tagId, hashIds[..i]))
        invariant added == |pending| - |old(pending)|
      {
        var n := StagePair(tagId, hashIds[i]);
        added := added + n;
        RowPairsSnoc(tagId, hashIds, i);
        StagesCompose(old(Value()), RowPairs(tagId, hashIds[..i]), {(tagId, hashIds[i])});
      }
      assert hashIds[..|hashIds|] == hashIds;
      StagedRow(old(Value()), tagId, hashIds);
    }

    /** The four statements of a successful commit, skipped when nothing is pending. */
    method CommitPending() returns (committed: nat)
      modifies this
      ensures Value() == Commit(old(Value()))
      ensures forall p :: CommittedIn(old(Value()), Value(), p)
      ensures committed == |old(pending)|
      ensures old(Consistent(Value())) ==> committed == |current| - |old(current)|
    {
      ghost var before := Value();
      committed := |pending|;
      if committed == 0 {
        return;
      }
      deleted := deleted - pending;
      petitioned := petitioned - pending;
      current := current + pending;
      pending := {};
      assert Consistent(before) ==> |before.current + before.pending| == |before.current| + |before.pending|;
    }

    /** The statements of a local add of one pair. */
    method SetCurrent(tagId: int, hashId: int)
      modifies this
      ensures Value() == LocalAdd(old(Value()), {(tagId, hashId)})
      ensures forall p :: if p == (tagId, hashId) then OnlyCurrent(Value(), p) else Untouched(old(Value()), Value(), p)
    {
      var p := (tagId, hashId);
      deleted := deleted - {p};
      pending := pending - {p};
      petitioned := petitioned - {p};
      current := current + {p};
    }
  }
}
