/** Moving a collection between databases: copy, verify, only then delete. */
module Migration {
  import opened Scopes
  import opened Gateway

  type Docs = map<string, Doc>

  /** The canonical text a document is compared by. Distinct documents may share it. */
  type Canon = Doc -> string

  /** One collection of one database. */
  class Database {
    var docs: Docs

    constructor (docs: Docs)
      ensures this.docs == docs
    {
      this.docs := docs;
    }

    /** Create, or fail on a taken id. */
    method Create(id: string, d: Doc) returns (ok: bool)
      modifies this
      ensures ok <==> id !in old(docs)
      ensures docs == if ok then old(docs)[id := d] else old(docs)
    {
      ok := id !in docs;
      if ok {
        docs := docs[id := d];
      }
    }

    /** One atomic batch of deletes. */
    method DeleteBatch(ids: set<string>)
      modifies this
      ensures docs == old(docs) - ids
    {
      docs := docs - ids;
    }
  }

  const BATCH: nat := 400

  datatype Outcome =
    | Migrated(remaining: nat)
    | NothingLeft
    | Aborted(missing: nat, differing: nat)
    | Collided(id: string)
    | Interrupted

  /** `a` is part of `b`, document for document. */
  ghost predicate Within(a: Docs, b: Docs) {
    forall k :: k in a ==> k in b && b[k] == a[k]
  }

  predicate Held(canon: Canon, k: string, d: Doc, at: Docs) {
    k in at && canon(at[k]) == canon(d)
  }

  /** Every document of `a` is in `b` under its id with the same canonical text. */
  ghost predicate AllHeld(canon: Canon, a: Docs, b: Docs) {
    forall k :: k in a ==> Held(canon, k, a[k], b)
  }

  /**
   * What a run may do from (s0, d0) to (s1, d1): every source document is still where it was or is held by the
   * destination, no destination document is touched, the source only shrinks, the destination gains only copies.
   */
  ghost predicate Conserves(canon: Canon, s0: Docs, d0: Docs, s1: Docs, d1: Docs) {
    && Within(d0, d1) && Within(s1, s0)
    && (forall k :: k in s0 ==> (k in s1 && s1[k] == s0[k]) || Held(canon, k, s0[k], d1))
    && (forall k :: k in d1 && k !in d0 ==> k in s0 && d1[k] == s0[k])
  }

  /** A sequence that visits every key of the snapshot once, in whatever order. */
  ghost predicate Visits(order: seq<string>, docs: Docs) {
    && (forall i, j :: 0 <= i < j < |order| ==> order[i] != order[j])
    && (forall k :: k in order <==> k in docs)
  }

  /** What was read before: part of what is there now. */
  ghost predicate Fresh(order: seq<string>, srcDocs: Docs, dstDocs: Docs, src: Docs, dst: Docs) {
    Visits(order, srcDocs) && Within(srcDocs, src) && Within(dstDocs, dst)
  }

  /** `copied` of the documents in order[..i] reached the destination, which holds nothing else new. */
  ghost predicate CopiedUpTo(srcDocs: Docs, dstDocs: Docs, order: seq<string>, i: nat, d0: Docs, d: Docs)
    requires i <= |order|
  {
    && Within(d0, d)
    && (forall k :: k in order[..i] ==> k in d)
    && (forall k :: k in d && k !in d0 ==> k in srcDocs && d[k] == srcDocs[k])
  }

  /** Copies every document the destination snapshot lacks. `fuel` is how many writes happen before the process dies. */
  method Copy(src: Database, dst: Database, srcDocs: Docs, dstDocs: Docs, order: seq<string>, fuel: nat)
    returns (out: Option<Outcome>, left: nat)
    requires src != dst && Fresh(order, srcDocs, dstDocs, src.docs, dst.docs)
    modifies dst
    ensures CopiedUpTo(srcDocs, dstDocs, order, 0, old(dst.docs), dst.docs)
    ensures out.None? ==> CopiedUpTo(srcDocs, dstDocs, order, |order|, old(dst.docs), dst.docs)
    ensures out.Some? ==> out.value.Interrupted? || out.value.Collided?
    ensures out.Some? && out.value.Collided? ==> out.value.id in old(dst.docs) && out.value.id !in dstDocs
    ensures left <= fuel && (out == Some(Interrupted) ==> fuel < |order|) && (out.None? ==> fuel - left <= |order|)
  {
    left := fuel;
    for i := 0 to |order|
      invariant CopiedUpTo(srcDocs, dstDocs, order, i, old(dst.docs), dst.docs)
      invariant forall k :: k in dst.docs && k !in old(dst.docs) ==> k in order[..i]
      invariant left <= fuel && fuel - left <= i
    {
      var id := order[i];
      assert order[..i + 1] == order[..i] + [id];
      assert id in srcDocs && id !in order[..i];
      if id in dstDocs {
        continue;
      }
      if left == 0 {
        return Some(Interrupted), left;
      }
      left := left - 1;
      var ok := dst.Create(id, srcDocs[id]);
      if !ok {
        return Some(Collided(id)), left;
      }
    }
    out := None;
  }

  /** Re-reads the destination and counts what is missing or differs. */
  method VerifyCopy(canon: Canon, srcDocs: Docs, copied: Docs, order: seq<string>)
    returns (missing: nat, differing: nat)
    requires Visits(order, srcDocs)
    ensures missing == 0 && differing == 0 <==> AllHeld(canon, srcDocs, copied)
    ensures missing > 0 <==> exists k :: k in srcDocs && k !in copied
    ensures differing > 0 <==> exists k :: k in srcDocs && k in copied && !Held(canon, k, srcDocs[k], copied)
  {
    missing, differing := 0, 0;
    for i := 0 to |order|
      invariant missing > 0 <==> exists j :: 0 <= j < i && order[j] !in copied
      invariant differing > 0 <==>
        exists j :: 0 <= j < i && order[j] in copied && !Held(canon, order[j], srcDocs[order[j]], copied)
    {
      assert order[i] in order;
      if order[i] !in copied {
        missing := missing + 1;
      } else if canon(copied[order[i]]) != canon(srcDocs[order[i]]) {
        differing := differing + 1;
      }
    }
    forall j | 0 <= j < |order| ensures order[j] in srcDocs {
      assert order[j] in order;
    }
    forall k | k in srcDocs && !Held(canon, k, srcDocs[k], copied) ensures missing > 0 || differing > 0 {
      var j :| 0 <= j < |order| && order[j] == k;
    }
    forall k | k in srcDocs && k !in copied ensures missing > 0 {
      var j :| 0 <= j < |order| && order[j] == k;
    }
    forall k | k in srcDocs && k in copied && !Held(canon, k, srcDocs[k], copied) ensures differing > 0 {
      var j :| 0 <= j < |order| && order[j] == k;
    }
  }

  /** Deletes the snapshot from the source in atomic batches; dies between batches when `fuel` runs out. */
  method DeleteInBatches(src: Database, order: seq<string>, fuel: nat) returns (done: bool)
    modifies src
    ensures Within(src.docs, old(src.docs))
    ensures forall k :: k in old(src.docs) && k !in order ==> k in src.docs
    ensures done ==> forall k :: k in order ==> k !in src.docs
    ensures fuel > |order| ==> done
  {
    var batch: set<string> := {};
    var left, n := fuel, 0;
    for i := 0 to |order|
      invariant Within(src.docs, old(src.docs))
      invariant forall k :: k in old(src.docs) && k !in order ==> k in src.docs
      invariant forall k :: k in batch ==> k in order
      invariant forall k :: k in order[..i] ==> k in batch || k !in src.docs
      invariant left <= fuel && fuel - left <= i && n == i
    {
      assert order[..i + 1] == order[..i] + [order[i]];
      batch := batch + {order[i]};
      n := n + 1;
      if n % BATCH == 0 {
        if left == 0 {
          return false;
        }
        left := left - 1;
        src.DeleteBatch(batch);
        batch := {};
      }
    }
    if left == 0 {
      return false;
    }
    src.DeleteBatch(batch);
    done := true;
  }

  /** No document is in both places with two different texts. */
  ghost predicate Compatible(canon: Canon, src: Docs, dst: Docs) {
    forall k :: k in src && k in dst ==> Held(canon, k, src[k], dst)
  }

  /**
   * One collection's move, from snapshots taken earlier, dying after any number of writes. However it ends, everything
   * is conserved; and the source loses a document only after every snapshotted document was found in the destination.
   */
  method MigrateCollection(canon: Canon, src: Database, dst: Database, srcDocs: Docs, dstDocs: Docs, order: seq<string>,
                           fuel: nat)
    returns (out: Outcome)
    requires src != dst && Fresh(order, srcDocs, dstDocs, src.docs, dst.docs)
    modifies src, dst
    ensures Conserves(canon, old(src.docs), old(dst.docs), src.docs, dst.docs)
    ensures src.docs != old(src.docs) ==> AllHeld(canon, srcDocs, dst.docs)
    ensures forall k :: k in old(src.docs) && k !in srcDocs ==> k in src.docs
    ensures out.Migrated? ==>
      AllHeld(canon, srcDocs, dst.docs) && (forall k :: k in srcDocs ==> k !in src.docs) && out.remaining == |src.docs|
    ensures out.Aborted? ==> src.docs == old(src.docs) && out.missing == 0 && out.differing > 0
    ensures out.Collided? ==> src.docs == old(src.docs) && out.id in old(dst.docs) && out.id !in dstDocs
    ensures out.NothingLeft? <==> srcDocs == map[]
    ensures fuel > 2 * |order| && dstDocs == old(dst.docs) && Compatible(canon, srcDocs, dstDocs) ==>
      out.Migrated? || out.NothingLeft?
  {
    if srcDocs == map[] {
      return NothingLeft;
    }
    var stopped, left := Copy(src, dst, srcDocs, dstDocs, order, fuel);
    CopyConserves(canon, srcDocs, dstDocs, order, src.docs, old(dst.docs), dst.docs);
    if stopped.Some? {
      return stopped.value;
    }
    var missing, differing := VerifyCopy(canon, srcDocs, dst.docs, order);
    NoneMissing(canon, srcDocs, dstDocs, order, old(dst.docs), dst.docs);
    if missing > 0 || differing > 0 {
      return Aborted(missing, differing);
    }
    var done := DeleteInBatches(src, order, left);
    DeleteConserves(canon, srcDocs, order, old(src.docs), old(dst.docs), src.docs, dst.docs);
    if !done {
      return Interrupted;
    }
    return Migrated(|src.docs|);
  }

  lemma CopyConserves(canon: Canon, srcDocs: Docs, dstDocs: Docs, order: seq<string>, s: Docs, d0: Docs, d1: Docs)
    requires CopiedUpTo(srcDocs, dstDocs, order, 0, d0, d1) && Within(srcDocs, s)
    ensures Conserves(canon, s, d0, s, d1)
  {
  }

  lemma NoneMissing(canon: Canon, srcDocs: Docs, dstDocs: Docs, order: seq<string>, d0: Docs, d1: Docs)
    requires CopiedUpTo(srcDocs, dstDocs, order, |order|, d0, d1) && Visits(order, srcDocs)
    ensures forall k :: k in srcDocs ==> k in d1
    ensures d0 == dstDocs && Compatible(canon, srcDocs, dstDocs) ==> AllHeld(canon, srcDocs, d1)
  {
    assert order[..|order|] == order;
  }

  lemma DeleteConserves(canon: Canon, srcDocs: Docs, order: seq<string>, s0: Docs, d0: Docs, s1: Docs, d1: Docs)
    requires Conserves(canon, s0, d0, s0, d1) && Within(srcDocs, s0) && Visits(order, srcDocs)
    requires AllHeld(canon, srcDocs, d1)
    requires Within(s1, s0) && forall k :: k in s0 && k !in order ==> k in s1
    ensures Conserves(canon, s0, d0, s1, d1)
  {
    forall k | k in s0 ensures (k in s1 && s1[k] == s0[k]) || Held(canon, k, s0[k], d1) {
      if k in order {
        assert Held(canon, k, srcDocs[k], d1);
      }
    }
  }

  // ------------------------------------------------------------------
  // Any number of runs, stops and concurrent appends
  // ------------------------------------------------------------------

  datatype Databases = Databases(src: Docs, dst: Docs)

  /** Others append to either side under ids never used for anything else. */
  ghost predicate Appends(a: Databases, b: Databases, everSource: Docs) {
    && Within(a.src, b.src) && Within(a.dst, b.dst)
    && (forall k :: k in b.src && k !in a.src ==> k !in everSource && k !in a.dst)
  }

  /** The history of a migration: what has ever been in the source, and where things are now. */
  datatype History = History(ever: Docs, now: Databases)

  ghost predicate HistoryStep(canon: Canon, a: History, b: History) {
    || (b.ever == a.ever && Conserves(canon, a.now.src, a.now.dst, b.now.src, b.now.dst))
    || (Appends(a.now, b.now, a.ever) && b.ever == a.ever + b.now.src)
  }

  ghost predicate IsHistory(canon: Canon, run: seq<History>) {
    && run != [] && run[0].ever == run[0].now.src
    && forall i :: 0 < i < |run| ==> HistoryStep(canon, run[i - 1], run[i])
  }

  /** Nothing that was ever in the source is lost: it is there unchanged, or the destination holds it. */
  ghost predicate NothingLost(canon: Canon, h: History) {
    && Within(h.now.src, h.ever)
    && forall k :: k in h.ever ==> (k in h.now.src && h.now.src[k] == h.ever[k]) || Held(canon, k, h.ever[k], h.now.dst)
  }

  lemma StepLosesNothing(canon: Canon, a: History, b: History)
    requires NothingLost(canon, a) && HistoryStep(canon, a, b)
    ensures NothingLost(canon, b) && Within(a.now.dst, b.now.dst)
  {
    if b.ever == a.ever && Conserves(canon, a.now.src, a.now.dst, b.now.src, b.now.dst) {
      forall k | k in b.ever
        ensures (k in b.now.src && b.now.src[k] == b.ever[k]) || Held(canon, k, b.ever[k], b.now.dst)
      {
        if k in a.now.src && a.now.src[k] == a.ever[k] {
        } else {
          assert Held(canon, k, a.ever[k], a.now.dst);
        }
      }
    } else {
      forall k | k in b.ever
        ensures (k in b.now.src && b.now.src[k] == b.ever[k]) || Held(canon, k, b.ever[k], b.now.dst)
      {
        if k !in b.now.src {
          assert Held(canon, k, a.ever[k], a.now.dst);
        }
      }
    }
  }

  /** Conservation over every history of runs, interruptions, re-runs and appends. */
  lemma {:induction false} MigrationConserves(canon: Canon, run: seq<History>, i: nat)
    requires IsHistory(canon, run) && i < |run|
    ensures NothingLost(canon, run[i])
    ensures Within(run[0].now.dst, run[i].now.dst)
  {
    if i > 0 {
      hide HistoryStep, NothingLost;
      MigrationConserves(canon, run, i - 1);
      StepLosesNothing(canon, run[i - 1], run[i]);
    } else {
      assert run[0].ever == run[0].now.src;
    }
  }

  // ------------------------------------------------------------------
  // Workers and writers interleaved, write by write
  // ------------------------------------------------------------------

  datatype Phase = Reading | Copying | Verified | Stopped

  /** One execution of the script on the collection; one that died is never scheduled again. */
  datatype Worker = Worker(srcDocs: Docs, dstDocs: Docs, order: seq<string>, next: nat, phase: Phase)

  datatype Cutover = Cutover(h: History, workers: seq<Worker>)

  datatype CutoverStep =
    | ReadSource(order: seq<string>)
    | ReadDestination(i: nat)
    | CopyNext(i: nat)
    | CheckCopy(i: nat)
    | DeleteSome(i: nat, ids: set<string>)
    | OthersAppend(now: Databases)

  predicate Working(w: Cutover, i: nat, phase: Phase) {
    i < |w.workers| && w.workers[i].phase == phase
  }

  ghost predicate Ready(w: Cutover, s: CutoverStep) {
    match s
    case ReadSource(order) => Visits(order, w.h.now.src)
    case ReadDestination(i) => Working(w, i, Reading)
    case CopyNext(i) => Working(w, i, Copying) && w.workers[i].next < |w.workers[i].order|
      && w.workers[i].order[w.workers[i].next] in w.workers[i].srcDocs
    case CheckCopy(i) => Working(w, i, Copying) && w.workers[i].next == |w.workers[i].order|
    case DeleteSome(i, ids) => Working(w, i, Verified) && ids <= w.workers[i].srcDocs.Keys
    case OthersAppend(now) => Appends(w.h.now, now, w.h.ever)
  }

  /** The worker's next document, if its snapshot of the destination lacks it. */
  ghost function Copied(w: Cutover, x: Worker): (dst: Docs)
    requires x.next < |x.order| && x.order[x.next] in x.srcDocs
  {
    var id := x.order[x.next];
    if id in x.dstDocs || id in w.h.now.dst then w.h.now.dst else w.h.now.dst[id := x.srcDocs[id]]
  }

  ghost function AfterCopy(w: Cutover, x: Worker): Worker
    requires x.next < |x.order|
  {
    var id := x.order[x.next];
    if id !in x.dstDocs && id in w.h.now.dst then x.(phase := Stopped) else x.(next := x.next + 1)
  }

  ghost predicate Stepped(canon: Canon, w: Cutover, s: CutoverStep, t: Cutover) {
    && Ready(w, s)
    && match s
       case ReadSource(order) => t == w.(workers := w.workers + [Worker(w.h.now.src, map[], order, 0, Reading)])
       case ReadDestination(i) => t
         == w.(workers := w.workers[i := w.workers[i].(dstDocs := w.h.now.dst, phase := Copying)])
       case CopyNext(i) =>
         t == Cutover(w.h.(now := w.h.now.(dst := Copied(w, w.workers[i]))), w.workers[i := AfterCopy(w, w.workers[i])])
       case CheckCopy(i) =>
         var ok := AllHeld(canon, w.workers[i].srcDocs, w.h.now.dst);
         t == w.(workers := w.workers[i := w.workers[i].(phase := if ok then Verified else Stopped)])
       case DeleteSome(i, ids) => t == w.(h := w.h.(now := w.h.now.(src := w.h.now.src - ids)))
       case OthersAppend(now) => t == w.(h := History(w.h.ever + now.src, now))
  }

  ghost predicate IsCutover(canon: Canon, run: seq<Cutover>, steps: seq<CutoverStep>) {
    && |run| == |steps| + 1 && run[0].workers == [] && run[0].h.ever == run[0].h.now.src
    && forall k :: 0 < k < |run| ==> Stepped(canon, run[k - 1], steps[k - 1], run[k])
  }

  /** What a worker read is what was ever there, and a worker that may delete has found all of it in the destination. */
  ghost predicate WorkerOk(canon: Canon, h: History, x: Worker) {
    Within(x.srcDocs, h.ever) && (x.phase == Verified ==> AllHeld(canon, x.srcDocs, h.now.dst))
  }

  /** No document leaves the source that no worker had read. */
  ghost predicate UnreadStays(w: Cutover) {
    forall k :: k in w.h.ever && (forall x :: x in w.workers ==> k !in x.srcDocs) ==> k in w.h.now.src
  }

  ghost predicate CutoverInv(canon: Canon, w: Cutover) {
    NothingLost(canon, w.h) && UnreadStays(w) && forall x :: x in w.workers ==> WorkerOk(canon, w.h, x)
  }

  /** A growing destination and a growing past keep every worker in order. */
  lemma WorkersKeep(canon: Canon, a: History, b: History, workers: seq<Worker>)
    requires Within(a.now.dst, b.now.dst) && Within(a.ever, b.ever)
    requires forall x :: x in workers ==> WorkerOk(canon, a, x)
    ensures forall x :: x in workers ==> WorkerOk(canon, b, x)
  {
    forall x | x in workers ensures WorkerOk(canon, b, x) {
      assert WorkerOk(canon, a, x);
      forall k | x.phase == Verified && k in x.srcDocs ensures Held(canon, k, x.srcDocs[k], b.now.dst) {
        assert Held(canon, k, x.srcDocs[k], a.now.dst);
      }
    }
  }

  /** Every document held before is held in a grown destination. */
  lemma HeldKeeps(canon: Canon, a: History, b: History)
    requires NothingLost(canon, a) && a.ever == b.ever && a.now.src == b.now.src && Within(a.now.dst, b.now.dst)
    ensures NothingLost(canon, b)
  {
    forall k | k in b.ever && !(k in b.now.src && b.now.src[k] == b.ever[k])
      ensures Held(canon, k, b.ever[k], b.now.dst)
    {
      assert Held(canon, k, a.ever[k], a.now.dst);
    }
  }

  lemma OneWorkerMoves(canon: Canon, w: Cutover, t: Cutover, i: nat, x: Worker)
    requires CutoverInv(canon, w) && i < |w.workers| && t.workers == w.workers[i := x]
    requires x.srcDocs == w.workers[i].srcDocs
    requires t.h.ever == w.h.ever && t.h.now.src == w.h.now.src && Within(w.h.now.dst, t.h.now.dst)
    requires x.phase == Verified ==> AllHeld(canon, x.srcDocs, t.h.now.dst)
    ensures CutoverInv(canon, t)
  {
    HeldKeeps(canon, w.h, t.h);
    WorkersKeep(canon, w.h, t.h, w.workers);
    assert w.workers[i] in w.workers;
    assert WorkerOk(canon, t.h, w.workers[i]);
    hide NothingLost, AllHeld, Within;
    assert forall y :: y in t.workers ==> y == x || y in w.workers;
    assert x in t.workers by { assert t.workers[i] == x; }
    forall y | y in w.workers ensures exists z :: z in t.workers && z.srcDocs == y.srcDocs {
      var j :| 0 <= j < |w.workers| && w.workers[j] == y;
      assert t.workers[j] in t.workers;
    }
  }

  /** Deleting what a worker has verified loses nothing. */
  lemma DeletionKeeps(canon: Canon, w: Cutover, t: Cutover, i: nat, ids: set<string>)
    requires CutoverInv(canon, w) && Stepped(canon, w, DeleteSome(i, ids), t)
    ensures CutoverInv(canon, t)
  {
    var x := w.workers[i];
    assert x in w.workers && WorkerOk(canon, w.h, x);
    forall k | k in t.h.ever && k !in t.h.now.src ensures Held(canon, k, t.h.ever[k], t.h.now.dst) {
      if k in ids {
        assert Held(canon, k, x.srcDocs[k], w.h.now.dst);
      } else {
        assert Held(canon, k, w.h.ever[k], w.h.now.dst);
      }
    }
    WorkersKeep(canon, w.h, t.h, w.workers);
  }

  lemma AppendKeeps(canon: Canon, w: Cutover, t: Cutover, now: Databases)
    requires CutoverInv(canon, w) && Stepped(canon, w, OthersAppend(now), t)
    ensures CutoverInv(canon, t)
  {
    StepLosesNothing(canon, w.h, t.h);
    assert Within(w.h.ever, t.h.ever);
    WorkersKeep(canon, w.h, t.h, w.workers);
  }

  lemma StartKeeps(canon: Canon, w: Cutover, t: Cutover, order: seq<string>)
    requires CutoverInv(canon, w) && Stepped(canon, w, ReadSource(order), t)
    ensures CutoverInv(canon, t)
  {
    hide AllHeld;
    assert forall x :: x in w.workers ==> x in t.workers;
  }

  lemma CutoverStepKeeps(canon: Canon, w: Cutover, s: CutoverStep, t: Cutover)
    requires CutoverInv(canon, w) && Stepped(canon, w, s, t)
    ensures CutoverInv(canon, t) && Within(w.h.now.dst, t.h.now.dst)
  {
    hide CutoverInv, AllHeld;
    match s
    case ReadSource(order) => StartKeeps(canon, w, t, order);
    case ReadDestination(i) => OneWorkerMoves(canon, w, t, i, t.workers[i]);
    case CopyNext(i) => OneWorkerMoves(canon, w, t, i, t.workers[i]);
    case CheckCopy(i) => OneWorkerMoves(canon, w, t, i, t.workers[i]);
    case DeleteSome(i, ids) => DeletionKeeps(canon, w, t, i, ids);
    case OthersAppend(now) => AppendKeeps(canon, w, t, now);
  }

  /**
   * Any number of workers, interleaved write by write with each other and with writers on both sides, dying anywhere:
   * nothing ever in the source is lost, what no worker had read stays in the source, and the destination only grows.
   */
  lemma {:induction false} CutoverConserves(canon: Canon, run: seq<Cutover>, steps: seq<CutoverStep>, k: nat)
    requires IsCutover(canon, run, steps) && k < |run|
    ensures NothingLost(canon, run[k].h) && UnreadStays(run[k])
    ensures Within(run[0].h.now.dst, run[k].h.now.dst)
    ensures CutoverInv(canon, run[k])
  {
    if k > 0 {
      CutoverConserves(canon, run, steps, k - 1);
      hide Stepped, NothingLost, WorkerOk, UnreadStays;
      assert Stepped(canon, run[k - 1], steps[k - 1], run[k]);
      CutoverStepKeeps(canon, run[k - 1], steps[k - 1], run[k]);
    }
  }
}
