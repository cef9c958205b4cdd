/** The agent gateway: policy, identity and lease checks in front of a create-only store. */
module Gateway {
  import opened Scopes
  import opened Lease

  // ------------------------------------------------------------------
  // The policy table
  // ------------------------------------------------------------------

  /** A permitted collection, and the filter every access to it must carry, if any. */
  datatype Permit = Permit(collection: string, requiredFilter: Option<string>)

  datatype RolePolicy = RolePolicy(serviceAccount: string, domain: string, permitted: seq<Permit>, denied: set<string>)

  /** Roles, the database of each conflict domain, and the collections routed by name. */
  datatype Policy = Policy(
    roles: map<string, RolePolicy>,
    domainDatabase: map<string, string>,
    credentialCollections: set<string>,
    credentialDatabase: string,
    sharedCollections: set<string>)

  const DEFAULT_DATABASE := "(default)"

  /** The collection name up to its first slash. */
  function Root(collection: string): string {
    if collection == "" || collection[0] == '/' then "" else [collection[0]] + Root(collection[1..])
  }

  function FindPermit(permits: seq<Permit>, root: string): Option<Permit> {
    if permits == [] then None
    else if permits[0].collection == root then Some(permits[0])
    else FindPermit(permits[1..], root)
  }

  /** Denials first and absolutely, then an exact match on the root; an unknown role may do nothing. */
  function GetActionPermission(p: Policy, role: string, collection: string): (bool, Option<string>) {
    if role !in p.roles then (false, None)
    else
      var info := p.roles[role];
      var root := Root(collection);
      if root in info.denied || collection in info.denied then (false, None)
      else
        match FindPermit(info.permitted, root)
        case Some(permit) => (true, permit.requiredFilter)
        case None => (false, None)
  }

  function DatabaseForCollection(p: Policy, role: string, collection: string): string {
    var root := Root(collection);
    if root in p.credentialCollections then p.credentialDatabase
    else if root in p.sharedCollections then DEFAULT_DATABASE
    else if role in p.roles && p.roles[role].domain in p.domainDatabase then p.domainDatabase[p.roles[role].domain]
    else DEFAULT_DATABASE
  }

  // ------------------------------------------------------------------
  // Documents and the store
  // ------------------------------------------------------------------

  datatype Doc =
    | GrantDoc(event: GrantEvent)
    | OutboxDoc(row: OutboxRow)
    | NoticeDoc(notice: Notice)
    | Record(fields: map<string, string>)

  /** `d.get(key)` on the string fields queries filter by. */
  function Field(d: Doc, key: string): Option<string> {
    match d
    case GrantDoc(e) =>
      if key == "grant_id" then Some(e.grantId)
      else if key == "work_id" then Some(e.workId)
      else if key == "counterparty_id" then Some(e.counterpartyId)
      else if key == "event_id" then Some(e.eventId)
      else None
    case OutboxDoc(r) =>
      if key == "operation_id" then Some(r.operationId)
      else if key == "grant_id" then Some(r.grantId)
      else if key == "work_id" then Some(r.workId)
      else if key == "counterparty_id" then Some(r.counterpartyId)
      else if key == "outbox_id" then Some(r.outboxId)
      else None
    case NoticeDoc(n) =>
      if key == "grant_id" then Some(n.grantId)
      else if key == "counterparty_id" then Some(n.counterpartyId)
      else None
    case Record(f) => if key in f then Some(f[key]) else None
  }

  predicate Satisfies(d: Doc, filters: map<string, string>) {
    forall k :: k in filters ==> Field(d, k) == Some(filters[k])
  }

  function Select(docs: seq<Doc>, filters: map<string, string>): (r: seq<Doc>)
    ensures forall d :: d in r <==> d in docs && Satisfies(d, filters)
  {
    if docs == [] then []
    else
      var last := docs[|docs| - 1];
      assert docs == docs[..|docs| - 1] + [last];
      Select(docs[..|docs| - 1], filters) + if Satisfies(last, filters) then [last] else []
  }

  datatype Entry = Entry(id: string, doc: Doc)

  /** A collection as an insertion-ordered dictionary. */
  type Bucket = seq<Entry>

  predicate HasId(b: Bucket, id: string) {
    exists i :: 0 <= i < |b| && b[i].id == id
  }

  ghost predicate UniqueKeys(b: Bucket) {
    forall i, j :: 0 <= i < j < |b| ==> b[i].id != b[j].id
  }

  function DocsOf(b: Bucket): (r: seq<Doc>)
    ensures |r| == |b|
    ensures forall i :: 0 <= i < |b| ==> r[i] == b[i].doc
  {
    seq(|b|, i requires 0 <= i < |b| => b[i].doc)
  }

  /** Dictionary assignment: replace in place, or append. */
  function Put(b: Bucket, id: string, doc: Doc): Bucket {
    if b == [] then [Entry(id, doc)]
    else if b[0].id == id then [Entry(id, doc)] + b[1..]
    else [b[0]] + Put(b[1..], id, doc)
  }

  /** Documents handed in at construction, and documents written since. */
  datatype Store = Store(served: map<string, seq<Doc>>, written: map<string, Bucket>)

  function Written(s: Store, collection: string): Bucket {
    if collection in s.written then s.written[collection] else []
  }

  function Served(s: Store, collection: string): seq<Doc> {
    if collection in s.served then s.served[collection] else []
  }

  function Query(s: Store, collection: string, filters: map<string, string>): seq<Doc> {
    Select(Served(s, collection) + DocsOf(Written(s, collection)), filters)
  }

  /**
   * A query returns each document handed in or written to the collection that has every required value, as often as it
   * stands there, and no other.
   */
  lemma QueryIff(s: Store, collection: string, filters: map<string, string>, d: Doc)
    ensures multiset(Query(s, collection, filters))[d]
      == if forall k :: k in filters ==> Field(d, k) == Some(filters[k])
         then multiset(Served(s, collection))[d] + multiset(DocsOf(Written(s, collection)))[d]
         else 0
  {
    SelectCounts(Served(s, collection) + DocsOf(Written(s, collection)), filters, d);
    hide Field, Written, Served;
  }

  lemma {:induction false} SelectCounts(docs: seq<Doc>, filters: map<string, string>, d: Doc)
    ensures multiset(Select(docs, filters))[d] == if Satisfies(d, filters) then multiset(docs)[d] else 0
  {
    hide Satisfies;
    if docs != [] {
      SelectCounts(docs[..|docs| - 1], filters, d);
      assert docs == docs[..|docs| - 1] + [docs[|docs| - 1]];
    }
  }

  datatype Write = Write(collection: string, id: string, doc: Doc)

  function Assign(s: Store, w: Write): Store {
    s.(written := s.written[w.collection := Put(Written(s, w.collection), w.id, w.doc)])
  }

  predicate Taken(s: Store, w: Write) {
    HasId(Written(s, w.collection), w.id)
  }

  function AssignAll(s: Store, writes: seq<Write>): Store {
    if writes == [] then s else Assign(AssignAll(s, writes[..|writes| - 1]), writes[|writes| - 1])
  }

  /** All or none: one taken id refuses the whole batch. */
  function CreateAll(s: Store, writes: seq<Write>): Store {
    if exists i :: 0 <= i < |writes| && Taken(s, writes[i]) then s else AssignAll(s, writes)
  }

  /** `b` grew into `c` by appending only. */
  ghost predicate Extends(s: Store, t: Store) {
    t.served == s.served && forall c :: Written(s, c) <= Written(t, c)
  }

  // ------------------------------------------------------------------
  // Store laws
  // ------------------------------------------------------------------

  lemma HasIdConcat(a: Bucket, b: Bucket, id: string)
    ensures HasId(a + b, id) <==> HasId(a, id) || HasId(b, id)
  {
    if HasId(a, id) {
      var i :| 0 <= i < |a| && a[i].id == id;
      assert (a + b)[i].id == id;
    }
    if HasId(b, id) {
      var i :| 0 <= i < |b| && b[i].id == id;
      assert (a + b)[|a| + i].id == id;
    }
  }

  /** Assignment under an id the front does not hold happens past the front. */
  lemma {:induction false} PutPast(a: Bucket, b: Bucket, id: string, doc: Doc)
    requires !HasId(a, id)
    ensures Put(a + b, id, doc) == a + Put(b, id, doc)
  {
    if a == [] {
      assert a + b == b;
    } else {
      assert !HasId(a[1..], id) by {
        assert forall i :: 0 <= i < |a| - 1 ==> a[1..][i] == a[i + 1];
      }
      assert (a + b)[1..] == a[1..] + b;
      PutPast(a[1..], b, id, doc);
    }
  }

  /** What a batch leaves in one collection when all its ids were free. */
  function Tail(writes: seq<Write>, collection: string): Bucket {
    if writes == [] then []
    else
      var last := writes[|writes| - 1];
      var front := Tail(writes[..|writes| - 1], collection);
      if last.collection == collection then Put(front, last.id, last.doc) else front
  }

  ghost predicate AllFree(s: Store, writes: seq<Write>) {
    forall w :: w in writes ==> !Taken(s, w)
  }

  /** A batch of free ids only ever appends: every bucket keeps what it held, in place. */
  lemma {:induction false} BatchAppends(s: Store, writes: seq<Write>)
    requires AllFree(s, writes)
    ensures Extends(s, AssignAll(s, writes))
    ensures forall c :: Written(AssignAll(s, writes), c) == Written(s, c) + Tail(writes, c)
  {
    if writes != [] {
      var front, last := writes[..|writes| - 1], writes[|writes| - 1];
      BatchAppends(s, front);
      assert last in writes;
      PutPast(Written(s, last.collection), Tail(front, last.collection), last.id, last.doc);
    }
  }

  lemma CreateAllCases(s: Store, writes: seq<Write>)
    ensures CreateAll(s, writes) == if AllFree(s, writes) then AssignAll(s, writes) else s
    ensures Extends(s, CreateAll(s, writes))
  {
    if AllFree(s, writes) {
      BatchAppends(s, writes);
    }
  }

  lemma UniqueCons(e: Entry, rest: Bucket)
    ensures UniqueKeys([e] + rest) <==> UniqueKeys(rest) && !HasId(rest, e.id)
  {
    var b := [e] + rest;
    assert forall i :: 0 <= i < |rest| ==> b[i + 1] == rest[i];
    if UniqueKeys(b) {
      forall i, j | 0 <= i < j < |rest| ensures rest[i].id != rest[j].id {
        assert b[i + 1].id != b[j + 1].id;
      }
      forall i | 0 <= i < |rest| ensures rest[i].id != e.id {
        assert b[0].id != b[i + 1].id;
      }
    }
  }

  lemma InHasId(b: Bucket, e: Entry)
    ensures e in b ==> HasId(b, e.id)
  {
  }

  /** Dictionary laws of assignment. */
  lemma {:induction false} PutHolds(b: Bucket, id: string, doc: Doc)
    requires UniqueKeys(b)
    ensures UniqueKeys(Put(b, id, doc))
    ensures forall e :: e in Put(b, id, doc) <==> if e.id == id then e.doc == doc else e in b
    ensures forall k :: HasId(Put(b, id, doc), k) <==> k == id || HasId(b, k)
  {
    hide UniqueKeys;
    if b == [] {
      UniqueCons(Entry(id, doc), []);
      assert [Entry(id, doc)] + [] == [Entry(id, doc)];
      HasIdCons(Entry(id, doc), []);
    } else {
      assert b == [b[0]] + b[1..];
      UniqueCons(b[0], b[1..]);
      HasIdCons(b[0], b[1..]);
      if b[0].id == id {
        UniqueCons(Entry(id, doc), b[1..]);
        HasIdCons(Entry(id, doc), b[1..]);
        forall e | e in b[1..] ensures e.id != id { InHasId(b[1..], e); }
      } else {
        PutHolds(b[1..], id, doc);
        UniqueCons(b[0], Put(b[1..], id, doc));
        HasIdCons(b[0], Put(b[1..], id, doc));
      }
    }
  }

  lemma HasIdCons(e: Entry, rest: Bucket)
    ensures UniqueKeys([])
    ensures forall k :: HasId([e] + rest, k) <==> k == e.id || HasId(rest, k)
  {
    forall k ensures HasId([e] + rest, k) <==> k == e.id || HasId(rest, k) {
      HasIdConcat([e], rest, k);
      assert [e][0] == e;
    }
  }

  /** The document of the last write of the batch to one target. */
  function LastDoc(writes: seq<Write>, collection: string, id: string): Option<Doc> {
    if writes == [] then None
    else
      var last := writes[|writes| - 1];
      if last.collection == collection && last.id == id then Some(last.doc)
      else LastDoc(writes[..|writes| - 1], collection, id)
  }

  lemma {:induction false} TailHolds(writes: seq<Write>, collection: string)
    ensures UniqueKeys(Tail(writes, collection))
    ensures forall e :: e in Tail(writes, collection) <==> LastDoc(writes, collection, e.id) == Some(e.doc)
  {
    if writes != [] {
      var front, last := writes[..|writes| - 1], writes[|writes| - 1];
      TailHolds(front, collection);
      if last.collection == collection {
        PutHolds(Tail(front, collection), last.id, last.doc);
      }
    }
  }

  lemma {:induction false} LastDocIsAWrite(writes: seq<Write>, w: Write)
    requires w in writes
    ensures var d := LastDoc(writes, w.collection, w.id);
      d.Some? && Write(w.collection, w.id, d.value) in writes
  {
    var last := writes[|writes| - 1];
    if last.collection != w.collection || last.id != w.id {
      assert writes == writes[..|writes| - 1] + [last];
      LastDocIsAWrite(writes[..|writes| - 1], w);
    }
  }

  /** No two writes of the batch disagree about one target: checkable before the call. */
  ghost predicate Consistent(writes: seq<Write>) {
    forall v, w :: v in writes && w in writes && v.collection == w.collection && v.id == w.id ==> v.doc == w.doc
  }

  /** A batch of free ids stores every one of its writes if and only if it is consistent. */
  lemma BatchStoresEveryWriteIff(s: Store, writes: seq<Write>)
    requires AllFree(s, writes)
    ensures (forall w :: w in writes ==> Entry(w.id, w.doc) in Written(CreateAll(s, writes), w.collection))
       <==> Consistent(writes)
  {
    CreateAllCases(s, writes);
    BatchAppends(s, writes);
    var after := CreateAll(s, writes);
    forall w | w in writes
      ensures Entry(w.id, w.doc) in Written(after, w.collection) <==> LastDoc(writes, w.collection, w.id) == Some(w.doc)
    {
      TailHolds(writes, w.collection);
      InHasId(Written(s, w.collection), Entry(w.id, w.doc));
    }
    forall w | w in writes
      ensures var d := LastDoc(writes, w.collection, w.id);
        d.Some? && Write(w.collection, w.id, d.value) in writes
    {
      LastDocIsAWrite(writes, w);
    }
  }

  /** Two disagreeing writes to one new id: the batch succeeds and the first is lost. */
  lemma InconsistentBatchLosesAWrite(a: Doc, b: Doc)
    requires a != b
    ensures var after := CreateAll(Store(map[], map[]), [Write("grants", "x", a), Write("grants", "x", b)]);
      Entry("x", a) !in Written(after, "grants") && Entry("x", b) in Written(after, "grants")
  {
    var s := Store(map[], map[]);
    var writes := [Write("grants", "x", a), Write("grants", "x", b)];
    CreateAllCases(s, writes);
    BatchAppends(s, writes);
    TailHolds(writes, "grants");
    assert writes[..1] == [writes[0]];
  }

  // ------------------------------------------------------------------
  // Verdicts
  // ------------------------------------------------------------------

  datatype Caller = Caller(serviceAccount: string, role: string, verified: bool)

  datatype Denial = Denial(serviceAccount: string, role: string, collection: string, policyConsulted: string)

  datatype Verdict<+T> = Allowed(value: T) | Refused(denial: Denial)

  const IDENTITY_POLICY := "caller_identity_v1"
  const GATEWAY_POLICY := "gateway_policy_v1"
  const LEASE_POLICY := "execution_lease_v1"
  const ROUTING_POLICY := "domain_database_routing_v1"
  const ASSERTION_POLICY := "assertion_authority_v1"

  function OrUnidentified(s: string): string {
    if s == "" then "unidentified" else s
  }

  /** Who is calling: a presented identity as it is, else the role's declared account, else a refusal. */
  function Identify(p: Policy, strict: bool, identity: Option<Caller>, sa: string, role: string,
                    collection: string): Verdict<Caller> {
    var refusal := Refused(Denial(OrUnidentified(sa), OrUnidentified(role), collection, IDENTITY_POLICY));
    if identity.None?
      && (role == "" || role !in p.roles || (sa != "" && sa != p.roles[role].serviceAccount)) then refusal
    else
      var caller := if identity.Some? then identity.value else Caller(p.roles[role].serviceAccount, role, false);
      if strict && !caller.verified
      then Refused(Denial(caller.serviceAccount, caller.role, collection, IDENTITY_POLICY))
      else Allowed(caller)
  }

  /** The access verdict. Empty filters and an empty session stand for "none supplied". */
  function Access(p: Policy, strict: bool, identity: Option<Caller>, sa: string, role: string, collection: string,
                  filters: map<string, string>, session: map<string, string>): Verdict<Caller> {
    match Identify(p, strict, identity, sa, role, collection)
    case Refused(d) => Refused(d)
    case Allowed(c) =>
      var (permitted, key) := GetActionPermission(p, c.role, collection);
      var mismatch := c.role in p.roles && p.roles[c.role].serviceAccount != ""
        && c.serviceAccount != p.roles[c.role].serviceAccount;
      var unscoped := key.Some? && key.value != "" &&
        (key.value !in filters || key.value !in session || filters[key.value] != session[key.value]);
      if mismatch || !permitted || unscoped
      then Refused(Denial(c.serviceAccount, c.role, collection, GATEWAY_POLICY))
      else Allowed(c)
  }

  datatype Unit = Nothing

  /** What a call hands back: a value, a recorded denial, an id collision, or an unrecorded crash. */
  datatype Outcome<+T> =
    | Done(value: T)
    | Denied(denial: Denial)
    | AlreadyExists(collection: string, id: string)
    | Crashed

  /** The lease check: inactive without a ledger; an EMPTY lease id crashes on the way to its denial. */
  function LeaseCheck(ledger: Option<seq<LeaseEvent>>, sa: string, role: string, collection: string,
                      leaseId: Option<string>, now: Instant): (r: Outcome<Unit>)
    ensures !r.AlreadyExists?
  {
    if ledger.None? then Done(Nothing)
    else if leaseId == Some("") then Crashed
    else if leaseId.Some? && IsActive(ledger.value, leaseId.value, now) then Done(Nothing)
    else Denied(Denial(sa, role, collection, LEASE_POLICY))
  }

  /** With a ledger attached, the lease is named and its greatest event is an issue still in its lifetime. */
  ghost predicate Backed(ledger: Option<seq<LeaseEvent>>, leaseId: Option<string>, now: Instant) {
    ledger.Some? ==>
      leaseId.Some? && leaseId.value != "" && exists e :: IsLatest(ledger.value, leaseId.value, e) && Live(e, now)
  }

  /** The check passes exactly for a backed lease, refuses any other, and crashes on the empty id alone. */
  lemma LeaseCheckIff(ledger: Option<seq<LeaseEvent>>, sa: string, role: string, collection: string,
                      leaseId: Option<string>, now: Instant)
    requires ledger.Some? ==> UniqueEventIds(ledger.value)
    ensures var r := LeaseCheck(ledger, sa, role, collection, leaseId, now);
      && (r.Done? <==> Backed(ledger, leaseId, now))
      && (r.Crashed? <==> ledger.Some? && leaseId == Some(""))
      && (r.Denied? <==> !Backed(ledger, leaseId, now) && leaseId != Some(""))
      && (r.Denied? ==> r.denial == Denial(sa, role, collection, LEASE_POLICY))
  {
    if ledger.Some? && leaseId.Some? {
      LatestEventDecides(ledger.value, leaseId.value, now);
    }
    hide IsActive, IsLatest, Live;
  }

  /** Policy and lease for each write of a batch, in order; the first refusal is the batch's. */
  function BatchCheck(p: Policy, strict: bool, ledger: Option<seq<LeaseEvent>>, sa: string, role: string,
                      writes: seq<Write>, leaseId: Option<string>, nows: seq<Instant>): (r: Outcome<Unit>)
    requires |nows| == |writes|
    ensures !r.AlreadyExists?
  {
    if writes == [] then Done(Nothing)
    else
      var n := |writes| - 1;
      var front := BatchCheck(p, strict, ledger, sa, role, writes[..n], leaseId, nows[..n]);
      if !front.Done? then front
      else
        match Access(p, strict, None, sa, role, writes[n].collection, map[], map[])
        case Refused(d) => Denied(d)
        case Allowed(_) => LeaseCheck(ledger, sa, role, writes[n].collection, leaseId, nows[n])
  }

  /** Every write of the batch is allowed and backed at its own reading of the clock. */
  ghost predicate EachMayLand(p: Policy, strict: bool, ledger: Option<seq<LeaseEvent>>, sa: string, role: string,
                              writes: seq<Write>, leaseId: Option<string>, nows: seq<Instant>)
    requires |nows| == |writes|
  {
    forall i :: 0 <= i < |writes| ==> MayLand(p, strict, None, ledger, sa, role, writes[i].collection, leaseId, nows[i])
  }

  ghost predicate MayLand(p: Policy, strict: bool, identity: Option<Caller>, ledger: Option<seq<LeaseEvent>>,
                          sa: string, role: string, collection: string, leaseId: Option<string>, now: Instant) {
    Access(p, strict, identity, sa, role, collection, map[], map[]).Allowed? && Backed(ledger, leaseId, now)
  }

  lemma {:induction false} BatchCheckIff(p: Policy, strict: bool, ledger: Option<seq<LeaseEvent>>, sa: string,
                                         role: string, writes: seq<Write>, leaseId: Option<string>, nows: seq<Instant>)
    requires |nows| == |writes| && (ledger.Some? ==> UniqueEventIds(ledger.value))
    ensures BatchCheck(p, strict, ledger, sa, role, writes, leaseId, nows).Done? <==>
      EachMayLand(p, strict, ledger, sa, role, writes, leaseId, nows)
  {
    hide Access, LeaseCheck, Backed, UniqueEventIds;
    if writes != [] {
      var n := |writes| - 1;
      BatchCheckIff(p, strict, ledger, sa, role, writes[..n], leaseId, nows[..n]);
      LeaseCheckIff(ledger, sa, role, writes[n].collection, leaseId, nows[n]);
      assert forall i :: 0 <= i < n ==> writes[..n][i] == writes[i] && nows[..n][i] == nows[i];
    }
  }

  /** What lets a batch land: every write allowed and backed, one database, every id free. */
  ghost predicate BatchLands(p: Policy, strict: bool, ledger: Option<seq<LeaseEvent>>, sa: string, role: string,
                             s: Store, writes: seq<Write>, leaseId: Option<string>, nows: seq<Instant>)
    requires |nows| == |writes|
  {
    && EachMayLand(p, strict, ledger, sa, role, writes, leaseId, nows)
    && |Databases(p, role, writes)| <= 1 && AllFree(s, writes)
  }

  lemma BatchLandsIff(p: Policy, strict: bool, ledger: Option<seq<LeaseEvent>>, sa: string, role: string,
                      s: Store, writes: seq<Write>, leaseId: Option<string>, nows: seq<Instant>)
    requires |nows| == |writes| && (ledger.Some? ==> UniqueEventIds(ledger.value))
    ensures BatchLands(p, strict, ledger, sa, role, s, writes, leaseId, nows) <==>
      && BatchCheck(p, strict, ledger, sa, role, writes, leaseId, nows).Done?
      && |Databases(p, role, writes)| <= 1 && AllFree(s, writes)
  {
    hide EachMayLand, BatchCheck, AllFree, Databases;
    BatchCheckIff(p, strict, ledger, sa, role, writes, leaseId, nows);
  }

  /** Write i is the first of the batch whose id is taken. */
  predicate FirstTaken(s: Store, writes: seq<Write>, i: nat) {
    i < |writes| && Taken(s, writes[i]) && forall j :: 0 <= j < i ==> !Taken(s, writes[j])
  }

  /** The collision names that write. */
  ghost predicate CollidesFirst(s: Store, writes: seq<Write>, r: Outcome<Unit>) {
    exists i: nat :: FirstTaken(s, writes, i) && r == AlreadyExists(writes[i].collection, writes[i].id)
  }

  function Databases(p: Policy, role: string, writes: seq<Write>): set<string> {
    set w | w in writes :: DatabaseForCollection(p, role, w.collection)
  }

  /** Every denial, and nothing but a denial, adds one record. */
  ghost predicate Recorded<T>(before: seq<Denial>, after: seq<Denial>, r: Outcome<T>) {
    after == if r.Denied? then before + [r.denial] else before
  }

  // ------------------------------------------------------------------
  // The gateway
  // ------------------------------------------------------------------

  class AgentGateway {
    const policy: Policy
    const strict: bool
    const ledger: LeaseLedger?
    var denials: seq<Denial>
    var store: Store

    constructor (policy: Policy, strict: bool, ledger: LeaseLedger?, served: map<string, seq<Doc>>)
      ensures this.policy == policy && this.strict == strict && this.ledger == ledger
      ensures denials == [] && store == Store(served, map[])
    {
      this.policy := policy;
      this.strict := strict;
      this.ledger := ledger;
      denials := [];
      store := Store(served, map[]);
    }

    ghost function LedgerEvents(): Option<seq<LeaseEvent>>
      reads ledger
    {
      if ledger == null then None else Some(ledger.events)
    }

    method Enforce(sa: string, role: string, collection: string, filters: map<string, string>,
                   session: map<string, string>, identity: Option<Caller>) returns (r: Verdict<Caller>)
      modifies this`denials
      ensures r == Access(policy, strict, identity, sa, role, collection, filters, session)
      ensures denials == if r.Refused? then old(denials) + [r.denial] else old(denials)
    {
      match Identify(policy, strict, identity, sa, role, collection) {
        case Refused(d) =>
          denials := denials + [d];
          return Refused(d);
        case Allowed(c) =>
          var (permitted, key) := GetActionPermission(policy, c.role, collection);
          var refused := false;
          if c.role in policy.roles && policy.roles[c.role].serviceAccount != ""
            && c.serviceAccount != policy.roles[c.role].serviceAccount {
            refused := true;
          } else if !permitted {
            refused := true;
          } else if key.Some? && key.value != "" {
            if key.value !in filters {
              refused := true;
            } else if key.value !in session {
              refused := true;
            } else if filters[key.value] != session[key.value] {
              refused := true;
            }
          }
          if refused {
            var d := Denial(c.serviceAccount, c.role, collection, GATEWAY_POLICY);
            denials := denials + [d];
            return Refused(d);
          }
          return Allowed(c);
      }
    }

    method EnforceLease(sa: string, role: string, collection: string, leaseId: Option<string>, now: Instant)
      returns (r: Outcome<Unit>)
      modifies this`denials
      ensures r == LeaseCheck(LedgerEvents(), sa, role, collection, leaseId, now)
      ensures Recorded(old(denials), denials, r)
    {
      if ledger == null {
        return Done(Nothing);
      }
      if leaseId == Some("") {
        return Crashed;
      }
      if leaseId.Some? {
        var st := ledger.State(leaseId.value, now);
        if st.status == LeaseActive {
          return Done(Nothing);
        }
      }
      var d := Denial(sa, role, collection, LEASE_POLICY);
      denials := denials + [d];
      return Denied(d);
    }

    method ReadCollection(sa: string, role: string, collection: string, filters: map<string, string>,
                          session: map<string, string>, identity: Option<Caller>) returns (r: Outcome<seq<Doc>>)
      modifies this`denials
      ensures match Access(policy, strict, identity, sa, role, collection, filters, session)
        case Allowed(_) => r == Done(Query(store, collection, filters))
        case Refused(d) => r == Denied(d)
      ensures Recorded(old(denials), denials, r)
    {
      var v := Enforce(sa, role, collection, filters, session, identity);
      if v.Refused? {
        return Denied(v.denial);
      }
      r := Done(Query(store, collection, filters));
    }

    method WriteDocument(sa: string, role: string, collection: string, id: string, doc: Doc, leaseId: Option<string>,
                         identity: Option<Caller>, now: Instant) returns (r: Outcome<Unit>)
      modifies this`denials, this`store
      ensures Recorded(old(denials), denials, r)
      ensures match Access(policy, strict, identity, sa, role, collection, map[], map[])
        case Refused(d) => r == Denied(d) && store == old(store)
        case Allowed(_) =>
          var lease := LeaseCheck(LedgerEvents(), sa, role, collection, leaseId, now);
          if !lease.Done? then r == lease && store == old(store)
          else
            && store == CreateAll(old(store), [Write(collection, id, doc)])
            && r == if Taken(old(store), Write(collection, id, doc)) then AlreadyExists(collection, id)
              else Done(Nothing)
      ensures r.Done? || r.AlreadyExists? ==> store == CreateAll(old(store), [Write(collection, id, doc)])
      ensures !r.Done? ==> store == old(store)
      ensures r.Done? ==> store != old(store) && HasId(Written(store, collection), id)
      ensures (ledger != null ==> UniqueEventIds(ledger.events)) ==>
        (r.Done? <==>
         && MayLand(policy, strict, identity, LedgerEvents(), sa, role, collection, leaseId, now)
         && !HasId(Written(old(store), collection), id))
    {
      if ledger != null ==> UniqueEventIds(ledger.events) {
        LeaseCheckIff(LedgerEvents(), sa, role, collection, leaseId, now);
      }
      hide Backed, UniqueEventIds, Access, LeaseCheck, HasId;
      var v := Enforce(sa, role, collection, map[], map[], identity);
      if v.Refused? {
        return Denied(v.denial);
      }
      r := EnforceLease(sa, role, collection, leaseId, now);
      if !r.Done? {
        return;
      }
      var w := Write(collection, id, doc);
      assert [w][0] == w && [w][..0] == [];
      assert AssignAll(store, [w]) == Assign(AssignAll(store, []), w);
      if Taken(store, w) {
        r := AlreadyExists(collection, id);
      } else {
        AssignedIsThere(store, w);
        store := Assign(store, w);
      }
    }

    /** Policy and lease for every write of a batch, before anything is stored. */
    method EnforceBatch(sa: string, role: string, writes: seq<Write>, leaseId: Option<string>, nows: seq<Instant>)
      returns (r: Outcome<Unit>)
      requires |nows| == |writes|
      modifies this`denials
      ensures r == BatchCheck(policy, strict, LedgerEvents(), sa, role, writes, leaseId, nows)
      ensures Recorded(old(denials), denials, r)
    {
      hide Access, LeaseCheck, BatchCheck;
      BatchSteps(policy, strict, LedgerEvents(), sa, role, writes, leaseId, nows, 0);
      for i := 0 to |writes|
        invariant denials == old(denials)
        invariant BatchCheck(policy, strict, LedgerEvents(), sa, role, writes[..i], leaseId, nows[..i]).Done?
      {
        BatchSteps(policy, strict, LedgerEvents(), sa, role, writes, leaseId, nows, i);
        var v := Enforce(sa, role, writes[i].collection, map[], map[], None);
        if v.Refused? {
          BatchStops(policy, strict, LedgerEvents(), sa, role, writes, leaseId, nows, i + 1);
          return Denied(v.denial);
        }
        r := EnforceLease(sa, role, writes[i].collection, leaseId, nows[i]);
        if !r.Done? {
          BatchStops(policy, strict, LedgerEvents(), sa, role, writes, leaseId, nows, i + 1);
          return;
        }
      }
      assert writes[..|writes|] == writes && nows[..|writes|] == nows;
      r := Done(Nothing);
      OnlyNothing(BatchCheck(policy, strict, LedgerEvents(), sa, role, writes, leaseId, nows));
    }

    method WriteDocumentsAtomic(sa: string, role: string, writes: seq<Write>, leaseId: Option<string>,
                                nows: seq<Instant>) returns (r: Outcome<Unit>)
      requires |nows| == |writes|
      modifies this`denials, this`store
      ensures Recorded(old(denials), denials, r)
      ensures var check := BatchCheck(policy, strict, LedgerEvents(), sa, role, writes, leaseId, nows);
        if !check.Done? then r == check && store == old(store)
        else if |Databases(policy, role, writes)| > 1 then r.Denied? && r.denial.policyConsulted == ROUTING_POLICY
          && store == old(store)
        else
          && store == CreateAll(old(store), writes)
          && (r.Done? <==> AllFree(old(store), writes))
          && (!r.Done? ==> CollidesFirst(old(store), writes, r))
      ensures r.Done? ==> store == CreateAll(old(store), writes) && AllFree(old(store), writes)
      ensures r.AlreadyExists? ==> store == CreateAll(old(store), writes) && !AllFree(old(store), writes)
      ensures !r.Done? ==> store == old(store)
      ensures (ledger != null ==> UniqueEventIds(ledger.events)) ==>
        (r.Done? <==> BatchLands(policy, strict, LedgerEvents(), sa, role, old(store), writes, leaseId, nows))
    {
      if ledger != null ==> UniqueEventIds(ledger.events) {
        BatchLandsIff(policy, strict, LedgerEvents(), sa, role, store, writes, leaseId, nows);
      }
      hide *;
      r := EnforceBatch(sa, role, writes, leaseId, nows);
      IsRecorded(old(denials), denials, r);
      if !r.Done? {
        return;
      }
      if |Databases(policy, role, writes)| > 1 {
        var d := Denial(sa, role, "", ROUTING_POLICY);
        denials := denials + [d];
        r := Denied(d);
        IsRecorded(old(denials), denials, r);
        return;
      }
      CreateAllCases(store, writes);
      var i := FirstCollision(writes);
      if i < |writes| {
        r := AlreadyExists(writes[i].collection, writes[i].id);
        CollidesAt(store, writes, i);
      } else {
        AssignBatch(writes);
        r := Done(Nothing);
      }
      IsRecorded(old(denials), denials, r);
    }

    /** Where the batch first meets a taken id, if anywhere. */
    method FirstCollision(writes: seq<Write>) returns (i: nat)
      ensures i <= |writes| && (i < |writes| ==> FirstTaken(store, writes, i))
      ensures i == |writes| <==> AllFree(store, writes)
    {
      hide Taken;
      i := 0;
      while i < |writes|
        invariant i <= |writes| && forall j :: 0 <= j < i ==> !Taken(store, writes[j])
      {
        if Taken(store, writes[i]) {
          return;
        }
        i := i + 1;
      }
    }

    method AssignBatch(writes: seq<Write>)
      modifies this`store
      ensures store == AssignAll(old(store), writes)
    {
      hide Assign, AssignAll;
      AssignSteps(old(store), writes, 0);
      for i := 0 to |writes|
        invariant store == AssignAll(old(store), writes[..i])
      {
        AssignSteps(old(store), writes, i);
        store := Assign(store, writes[i]);
      }
      assert writes[..|writes|] == writes;
    }

    /** The epistemic gate: a role may submit an assertion only of a class it holds authority for. */
    method SubmitAssertion(authority: map<string, set<string>>, sa: string, role: string, assertionClass: string)
      returns (r: Outcome<Unit>)
      modifies this`denials
      ensures r == if MayAssert(authority, role, assertionClass) then Done(Nothing)
                   else Denied(Denial(sa, role, "incident_assertions", ASSERTION_POLICY))
      ensures r.Done? <==> role in authority && assertionClass in authority[role]
      ensures Recorded(old(denials), denials, r)
    {
      if !MayAssert(authority, role, assertionClass) {
        var d := Denial(sa, role, "incident_assertions", ASSERTION_POLICY);
        denials := denials + [d];
        return Denied(d);
      }
      r := Done(Nothing);
    }
  }

  /** Unknown roles and unknown classes are refused. */
  predicate MayAssert(authority: map<string, set<string>>, role: string, assertionClass: string) {
    role in authority && assertionClass in authority[role]
  }

  lemma OnlyNothing(r: Outcome<Unit>)
    requires r.Done?
    ensures r == Done(Nothing)
  {
    match r.value
    case Nothing =>
  }

  lemma IsRecorded<T>(before: seq<Denial>, after: seq<Denial>, r: Outcome<T>)
    ensures Recorded(before, after, r) <==> after == if r.Denied? then before + [r.denial] else before
  {
  }

  lemma CollisionSaysSo(s: Store, writes: seq<Write>, r: Outcome<Unit>)
    ensures CollidesFirst(s, writes, r) ==> r.AlreadyExists?
  {
  }

  lemma CollidesAt(s: Store, writes: seq<Write>, i: nat)
    requires FirstTaken(s, writes, i)
    ensures CollidesFirst(s, writes, AlreadyExists(writes[i].collection, writes[i].id))
  {
  }

  lemma AssignedIsThere(s: Store, w: Write)
    requires !Taken(s, w)
    ensures HasId(Written(Assign(s, w), w.collection), w.id) && Assign(s, w) != s
  {
    var b := Written(s, w.collection);
    assert b + [] == b;
    PutPast(b, [], w.id, w.doc);
    HasIdConcat(b, [Entry(w.id, w.doc)], w.id);
    assert [Entry(w.id, w.doc)][0].id == w.id;
  }

  lemma BatchSteps(p: Policy, strict: bool, ledger: Option<seq<LeaseEvent>>, sa: string, role: string,
                   writes: seq<Write>, leaseId: Option<string>, nows: seq<Instant>, i: nat)
    requires |nows| == |writes| && i <= |writes|
    ensures i == 0 ==> BatchCheck(p, strict, ledger, sa, role, writes[..i], leaseId, nows[..i]).Done?
    ensures i < |writes| && BatchCheck(p, strict, ledger, sa, role, writes[..i], leaseId, nows[..i]).Done? ==>
      BatchCheck(p, strict, ledger, sa, role, writes[..i + 1], leaseId, nows[..i + 1])
      == match Access(p, strict, None, sa, role, writes[i].collection, map[], map[])
         case Refused(d) => Denied(d)
         case Allowed(_) => LeaseCheck(ledger, sa, role, writes[i].collection, leaseId, nows[i])
  {
    if i < |writes| {
      assert writes[..i + 1][..i] == writes[..i] && nows[..i + 1][..i] == nows[..i];
    }
  }

  lemma AssignSteps(s: Store, writes: seq<Write>, i: nat)
    requires i <= |writes|
    ensures i == 0 ==> AssignAll(s, writes[..i]) == s
    ensures i < |writes| ==> AssignAll(s, writes[..i + 1]) == Assign(AssignAll(s, writes[..i]), writes[i])
  {
    if i < |writes| {
      assert writes[..i + 1][..i] == writes[..i];
    }
  }

  lemma {:induction false} BatchStops(p: Policy, strict: bool, ledger: Option<seq<LeaseEvent>>, sa: string,
                                      role: string, writes: seq<Write>, leaseId: Option<string>, nows: seq<Instant>,
                                      k: nat)
    requires |nows| == |writes| && k <= |writes|
    requires !BatchCheck(p, strict, ledger, sa, role, writes[..k], leaseId, nows[..k]).Done?
    ensures BatchCheck(p, strict, ledger, sa, role, writes, leaseId, nows)
         == BatchCheck(p, strict, ledger, sa, role, writes[..k], leaseId, nows[..k])
    decreases |writes|
  {
    var n := |writes| - 1;
    if k == |writes| {
      assert writes[..k] == writes && nows[..k] == nows;
    } else {
      assert writes[..n][..k] == writes[..k] && nows[..n][..k] == nows[..k];
      BatchStops(p, strict, ledger, sa, role, writes[..n], leaseId, nows[..n], k);
    }
  }

  // ------------------------------------------------------------------
  // Safety, for any policy table and any run
  // ------------------------------------------------------------------

  /**
   * The caller is the identity presented, or the known role under its declared account; in strict mode it is verified.
   */
  predicate Speaks(p: Policy, strict: bool, identity: Option<Caller>, sa: string, role: string, c: Caller) {
    && (identity.Some? ==> c == identity.value)
    && (identity.None? ==>
        role in p.roles && c == Caller(p.roles[role].serviceAccount, role, false)
          && (sa == "" || sa == c.serviceAccount))
    && (strict ==> c.verified)
  }

  lemma {:induction false} FoundPermitIsListed(permits: seq<Permit>, root: string)
    ensures FindPermit(permits, root).Some? <==> exists x :: x in permits && x.collection == root
    ensures FindPermit(permits, root).Some? ==> FindPermit(permits, root).value in permits
  {
    if permits != [] {
      FoundPermitIsListed(permits[1..], root);
      assert permits == [permits[0]] + permits[1..];
    }
  }

  /**
   * Default deny, for any table: whoever is let through is known, listed for that collection, not denied it, and who it
   * says.
   */
  lemma AllowedOnlyWhenListed(p: Policy, strict: bool, identity: Option<Caller>, sa: string, role: string,
                              collection: string, filters: map<string, string>, session: map<string, string>)
    requires Access(p, strict, identity, sa, role, collection, filters, session).Allowed?
    ensures var c := Access(p, strict, identity, sa, role, collection, filters, session).value;
      && Speaks(p, strict, identity, sa, role, c) && c.role in p.roles
      && (p.roles[c.role].serviceAccount != "" ==> c.serviceAccount == p.roles[c.role].serviceAccount)
      && Root(collection) !in p.roles[c.role].denied && collection !in p.roles[c.role].denied
      && exists x :: x in p.roles[c.role].permitted && x.collection == Root(collection)
  {
    var c := Access(p, strict, identity, sa, role, collection, filters, session).value;
    FoundPermitIsListed(p.roles[c.role].permitted, Root(collection));
  }

  /** The collection name up to its first slash: no slash in it, and nothing but a slash may follow. */
  lemma {:induction false} RootEndsAtTheSlash(collection: string)
    ensures '/' !in Root(collection)
    ensures collection == Root(collection) || Root(collection) + "/" <= collection
  {
    if collection != "" && collection[0] != '/' {
      RootEndsAtTheSlash(collection[1..]);
      assert collection == [collection[0]] + collection[1..];
    }
  }

  /** Entry i is the first of the list for that collection. */
  predicate FirstPermit(permits: seq<Permit>, root: string, i: int) {
    0 <= i < |permits| && permits[i].collection == root && forall j :: 0 <= j < i ==> permits[j].collection != root
  }

  /** No filter is required, or the one required is given and is the one the session proves. */
  predicate Scoped(required: Option<string>, filters: map<string, string>, session: map<string, string>) {
    required.Some? && required.value != "" ==>
      required.value in filters && required.value in session && filters[required.value] == session[required.value]
  }

  /** The table lets the caller have the collection. */
  ghost predicate Listed(p: Policy, c: Caller, collection: string, filters: map<string, string>,
                         session: map<string, string>) {
    && c.role in p.roles
    && (p.roles[c.role].serviceAccount != "" ==> c.serviceAccount == p.roles[c.role].serviceAccount)
    && Root(collection) !in p.roles[c.role].denied && collection !in p.roles[c.role].denied
    && var permits := p.roles[c.role].permitted;
    exists i :: FirstPermit(permits, Root(collection), i) && Scoped(permits[i].requiredFilter, filters, session)
  }

  lemma {:induction false} FoundIsFirst(permits: seq<Permit>, root: string)
    ensures FindPermit(permits, root).None? ==> forall i :: !FirstPermit(permits, root, i)
    ensures FindPermit(permits, root).Some? ==>
      exists i :: FirstPermit(permits, root, i) && permits[i] == FindPermit(permits, root).value
  {
    FoundPermitIsListed(permits, root);
    if permits != [] && permits[0].collection != root {
      FoundIsFirst(permits[1..], root);
      if i :| FirstPermit(permits[1..], root, i) && permits[1..][i] == FindPermit(permits[1..], root).value {
        assert FirstPermit(permits, root, i + 1);
      }
    } else if permits != [] {
      assert FirstPermit(permits, root, 0);
    }
  }

  /** Exactly who is let through, as exactly whom: the bound caller, when the table lists the collection for it. */
  lemma AllowedIff(p: Policy, strict: bool, identity: Option<Caller>, sa: string, role: string, collection: string,
                   filters: map<string, string>, session: map<string, string>, c: Caller)
    ensures Access(p, strict, identity, sa, role, collection, filters, session) == Allowed(c) <==>
      SpeaksAs(p, strict, identity, sa, role, c) && Listed(p, c, collection, filters, session)
  {
    if c.role in p.roles {
      FoundIsFirst(p.roles[c.role].permitted, Root(collection));
    }
    hide Root, FindPermit;
  }

  /** As Speaks, and without an identity the role must be named. */
  predicate SpeaksAs(p: Policy, strict: bool, identity: Option<Caller>, sa: string, role: string, c: Caller) {
    Speaks(p, strict, identity, sa, role, c) && (identity.None? ==> role != "")
  }

  /** A refusal names the principal it refused: the claimed one when nobody can be bound, the bound one otherwise. */
  lemma RefusalNamesThePrincipal(p: Policy, strict: bool, identity: Option<Caller>, sa: string, role: string,
                                 collection: string, filters: map<string, string>, session: map<string, string>)
    requires Access(p, strict, identity, sa, role, collection, filters, session).Refused?
    ensures var d := Access(p, strict, identity, sa, role, collection, filters, session).denial;
      && d.collection == collection
      && (d.policyConsulted == GATEWAY_POLICY <==> exists c :: SpeaksAs(p, strict, identity, sa, role, c))
      && (d.policyConsulted == GATEWAY_POLICY || d.policyConsulted == IDENTITY_POLICY)
      && forall c :: SpeaksAs(p, strict, identity, sa, role, c) ==>
        d.serviceAccount == c.serviceAccount && d.role == c.role
  {
    assert |GATEWAY_POLICY| == 17 && |IDENTITY_POLICY| == 18;
    hide GetActionPermission;
    if Identify(p, strict, identity, sa, role, collection).Allowed? {
      assert SpeaksAs(p, strict, identity, sa, role, Identify(p, strict, identity, sa, role, collection).value);
    }
  }

  /** A batch that mixes credentials with anything kept elsewhere spans two databases, so it is refused whole. */
  lemma CredentialBatchesStandAlone(p: Policy, role: string, writes: seq<Write>, v: Write, w: Write)
    requires v in writes && w in writes
    requires Root(v.collection) in p.credentialCollections && Root(w.collection) !in p.credentialCollections
    requires p.credentialDatabase !in p.domainDatabase.Values && p.credentialDatabase != DEFAULT_DATABASE
    ensures |Databases(p, role, writes)| > 1
  {
    hide Root;
    TwoDatabases(p, role, writes, v, w);
  }

  /** So does one that mixes a shared collection with one of the role's own domain. */
  lemma SharedAndDomainNeverMix(p: Policy, role: string, writes: seq<Write>, v: Write, w: Write)
    requires v in writes && w in writes && role in p.roles && p.roles[role].domain in p.domainDatabase
    requires Root(v.collection) in p.sharedCollections && Root(v.collection) !in p.credentialCollections
    requires Root(w.collection) !in p.sharedCollections && Root(w.collection) !in p.credentialCollections
    requires p.domainDatabase[p.roles[role].domain] != DEFAULT_DATABASE
    ensures |Databases(p, role, writes)| > 1
  {
    hide Root;
    TwoDatabases(p, role, writes, v, w);
  }

  lemma TwoDatabases(p: Policy, role: string, writes: seq<Write>, v: Write, w: Write)
    requires v in writes && w in writes
    requires DatabaseForCollection(p, role, v.collection) != DatabaseForCollection(p, role, w.collection)
    ensures |Databases(p, role, writes)| > 1
  {
    hide DatabaseForCollection;
    var all := Databases(p, role, writes);
    var two := {DatabaseForCollection(p, role, v.collection), DatabaseForCollection(p, role, w.collection)};
    assert two <= all;
    SubsetSize(two, all);
  }

  lemma SubsetSize(a: set<string>, b: set<string>)
    requires a <= b
    ensures |a| <= |b|
  {
    assert b == a + (b - a);
  }

  /** Collections of one domain that are neither credentials nor shared are kept together. */
  lemma DomainDataIsKeptTogether(p: Policy, role: string, a: string, b: string)
    requires forall c :: c in [a, b] ==> Root(c) !in p.credentialCollections && Root(c) !in p.sharedCollections
    ensures DatabaseForCollection(p, role, a) == DatabaseForCollection(p, role, b)
  {
    hide Root;
    assert a in [a, b] && b in [a, b];
  }

  /** Whoever reads a session-scoped collection gets only documents of the session it proved. */
  lemma SessionWall(p: Policy, strict: bool, identity: Option<Caller>, sa: string, role: string, collection: string,
                    filters: map<string, string>, session: map<string, string>, s: Store, d: Doc)
    requires Access(p, strict, identity, sa, role, collection, filters, session).Allowed?
    requires d in Query(s, collection, filters)
    ensures var c := Access(p, strict, identity, sa, role, collection, filters, session).value;
      var permission := GetActionPermission(p, c.role, collection);
      permission.0 && (ScopedFor(p, c.role, collection) ==>
        permission.1.value in session && Field(d, permission.1.value) == Some(session[permission.1.value]))
  {
  }

  /** The role may reach the collection only under a filter the session must prove. */
  predicate ScopedFor(p: Policy, role: string, collection: string) {
    var permission := GetActionPermission(p, role, collection);
    permission.1.Some? && permission.1.value != ""
  }

  /** A session-scoped collection cannot be written at all: a write presents no filter. */
  lemma ScopedCollectionsAreReadOnly(p: Policy, strict: bool, identity: Option<Caller>, sa: string, role: string,
                                     collection: string)
    requires forall r :: r in p.roles ==> ScopedFor(p, r, collection)
    ensures Access(p, strict, identity, sa, role, collection, map[], map[]).Refused?
  {
  }

  /** A lease refusal is recorded, except when the lease id is the empty string. */
  lemma LeaseRefusalRecordedIff(ledger: seq<LeaseEvent>, sa: string, role: string, collection: string,
                                leaseId: Option<string>, now: Instant)
    requires !LeaseCheck(Some(ledger), sa, role, collection, leaseId, now).Done?
    ensures LeaseCheck(Some(ledger), sa, role, collection, leaseId, now).Denied? <==> leaseId != Some("")
  {
  }

  lemma ExtendsTransitive(a: Store, b: Store, c: Store)
    requires Extends(a, b) && Extends(b, c)
    ensures Extends(a, c)
  {
  }

  /** One step: nothing, or a batch of creates. */
  ghost predicate StoreStep(s: Store, t: Store) {
    t == s || exists ws :: t == CreateAll(s, ws)
  }

  ghost predicate StoreRun(run: seq<Store>) {
    forall i :: 0 < i < |run| ==> StoreStep(run[i - 1], run[i])
  }

  lemma StepExtends(s: Store, t: Store)
    requires t == s || StoreStep(s, t)
    ensures Extends(s, t)
  {
    hide CreateAll;
    if t != s {
      var ws :| t == CreateAll(s, ws);
      CreateAllCases(s, ws);
    }
  }

  /** Over every run nothing stored is ever changed, moved or lost. */
  lemma {:induction false} StoredDocumentsStay(run: seq<Store>, i: nat, j: nat)
    requires StoreRun(run) && i <= j < |run|
    ensures Extends(run[i], run[j])
  {
    hide Extends, StoreStep;
    if i < j {
      StoredDocumentsStay(run, i, j - 1);
      assert StoreStep(run[j - 1], run[j]);
      StepExtends(run[j - 1], run[j]);
      ExtendsTransitive(run[i], run[j - 1], run[j]);
    } else {
      StepExtends(run[i], run[i]);
    }
  }
}
