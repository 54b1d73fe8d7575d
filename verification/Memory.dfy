/** src/aether_forge/memory.py: records free of secrets at every depth, and governed promotion. */
module Memory {
  import opened Results

  // ----- the secret scan -----

  /** Record content: dictionaries in insertion order, lists, and everything else. */
  datatype Content = Leaf(tag: int) | List(items: seq<Content>) | Dict(entries: seq<Entry>)

  datatype Entry = Entry(key: string, value: Content)

  datatype Segment = Key(name: string) | Index(i: nat)

  type Path = seq<Segment>

  /** `_find_secret_like_paths`; `secretLike` is the regular-expression test on one key. */
  function FindSecrets(v: Content, prefix: Path, secretLike: string -> bool): seq<Path>
    decreases v, 0
  {
    match v
    case Leaf(_) => []
    case List(items) => FindInItems(items, prefix, 0, secretLike)
    case Dict(entries) => FindInEntries(entries, prefix, secretLike)
  }

  function FindInItems(items: seq<Content>, prefix: Path, from: nat, secretLike: string -> bool): seq<Path>
    decreases items, 0
  {
    if items == [] then []
    else FindSecrets(items[0], prefix + [Index(from)], secretLike) + FindInItems(items[1..], prefix, from + 1, secretLike)
  }

  function FindInEntries(entries: seq<Entry>, prefix: Path, secretLike: string -> bool): seq<Path>
    decreases entries, 0
  {
    if entries == [] then []
    else
      FindInEntry(entries[0], prefix, secretLike) + FindInEntries(entries[1..], prefix, secretLike)
  }

  function FindInEntry(e: Entry, prefix: Path, secretLike: string -> bool): seq<Path>
    decreases e, 0
  {
    var next := prefix + [Key(e.key)];
    (if secretLike(e.key) then [next] else []) + FindSecrets(e.value, next, secretLike)
  }

  /** The reference: `path` leads from `v` to a dictionary key that looks like a secret. */
  ghost predicate LeadsToSecret(v: Content, path: Path, secretLike: string -> bool)
    decreases |path|, 1
  {
    path != [] &&
    match v
    case Leaf(_) => false
    case List(items) => path[0].Index? && path[0].i < |items| && LeadsToSecret(items[path[0].i], path[1..], secretLike)
    case Dict(entries) =>
      exists e :: e in entries && EntryLeads(e, path, secretLike)
  }

  /** `path` starts with the key of `e`, and leads to a secret-like key there or below. */
  ghost predicate EntryLeads(e: Entry, path: Path, secretLike: string -> bool)
    requires path != []
    decreases |path|, 0
  {
    path[0] == Key(e.key) && ((|path| == 1 && secretLike(e.key)) || LeadsToSecret(e.value, path[1..], secretLike))
  }

  /** The scan reports exactly the paths that lead to a secret-like key, at every depth. */
  lemma {:induction false} ScanIsExact(v: Content, prefix: Path, path: Path, secretLike: string -> bool)
    ensures prefix + path in FindSecrets(v, prefix, secretLike) <==> LeadsToSecret(v, path, secretLike)
    decreases v, 0
  {
    match v
    case Leaf(_) =>
    case List(items) => ItemsScanIsExact(items, prefix, 0, path, secretLike);
    case Dict(entries) => EntriesScanIsExact(entries, prefix, path, secretLike);
  }

  lemma SplitPath(prefix: Path, s: Segment, path: Path)
    ensures path != [] && path[0] == s ==> prefix + path == prefix + [s] + path[1..]
  {
  }

  lemma {:induction false} ReportsExtendPrefix(v: Content, prefix: Path, secretLike: string -> bool, p: Path)
    requires p in FindSecrets(v, prefix, secretLike)
    ensures |p| > |prefix| && p[..|prefix|] == prefix
    decreases v, 0
  {
    match v
    case List(items) => ItemReportsExtendPrefix(items, prefix, 0, secretLike, p);
    case Dict(entries) => EntryReportsExtendPrefix(entries, prefix, secretLike, p);
  }

  lemma {:induction false} ItemReportsExtendPrefix(items: seq<Content>, prefix: Path, from: nat, secretLike: string -> bool, p: Path)
    requires p in FindInItems(items, prefix, from, secretLike)
    ensures |p| > |prefix| && p[..|prefix|] == prefix && p[|prefix|].Index? && p[|prefix|].i >= from
    decreases items, 0
  {
    var inner := prefix + [Index(from)];
    if p in FindSecrets(items[0], inner, secretLike) {
      ReportsExtendPrefix(items[0], inner, secretLike, p);
      assert p[..|inner|][..|prefix|] == prefix && p[..|inner|][|prefix|] == Index(from);
    } else {
      ItemReportsExtendPrefix(items[1..], prefix, from + 1, secretLike, p);
    }
  }

  lemma {:induction false} EntryReportsExtendPrefix(entries: seq<Entry>, prefix: Path, secretLike: string -> bool, p: Path)
    requires p in FindInEntries(entries, prefix, secretLike)
    ensures |p| > |prefix| && p[..|prefix|] == prefix && p[|prefix|].Key?
    decreases entries, 0
  {
    var Entry(key, value) := entries[0];
    var inner := prefix + [Key(key)];
    if p == inner {
    } else if p in FindSecrets(value, inner, secretLike) {
      ReportsExtendPrefix(value, inner, secretLike, p);
      assert p[..|inner|][..|prefix|] == prefix && p[..|inner|][|prefix|] == Key(key);
    } else {
      EntryReportsExtendPrefix(entries[1..], prefix, secretLike, p);
    }
  }

  /** A report under one segment says that the path begins with it. */
  lemma ReportBelow(v: Content, prefix: Path, s: Segment, path: Path, secretLike: string -> bool)
    requires prefix + path in FindSecrets(v, prefix + [s], secretLike)
    ensures |path| > 1 && path[0] == s
  {
    ReportsExtendPrefix(v, prefix + [s], secretLike, prefix + path);
    assert (prefix + path)[..|prefix| + 1][|prefix|] == s;
  }

  lemma {:induction false} ItemsScanIsExact(items: seq<Content>, prefix: Path, from: nat, path: Path, secretLike: string -> bool)
    ensures prefix + path in FindInItems(items, prefix, from, secretLike) <==>
      path != [] && path[0].Index? && from <= path[0].i < from + |items|
      && LeadsToSecret(items[path[0].i - from], path[1..], secretLike)
    decreases items, 0
  {
    if items != [] {
      var s := Index(from);
      ItemsScanIsExact(items[1..], prefix, from + 1, path, secretLike);
      SplitPath(prefix, s, path);
      if path != [] && path[0] == s {
        ScanIsExact(items[0], prefix + [s], path[1..], secretLike);
      } else if prefix + path in FindSecrets(items[0], prefix + [s], secretLike) {
        ReportBelow(items[0], prefix, s, path, secretLike);
      }
    }
  }

  lemma {:induction false} EntriesScanIsExact(entries: seq<Entry>, prefix: Path, path: Path, secretLike: string -> bool)
    ensures prefix + path in FindInEntries(entries, prefix, secretLike) <==>
      path != [] && exists e :: e in entries && EntryLeads(e, path, secretLike)
    decreases entries, 0
  {
    if entries != [] {
      EntriesScanIsExact(entries[1..], prefix, path, secretLike);
      EntryScanIsExact(entries[0], prefix, path, secretLike);
      assert forall e :: e in entries <==> e == entries[0] || e in entries[1..];
      assert FindInEntries(entries, prefix, secretLike)
          == FindInEntry(entries[0], prefix, secretLike) + FindInEntries(entries[1..], prefix, secretLike);
    }
  }

  lemma {:induction false} EntryScanIsExact(e: Entry, prefix: Path, path: Path, secretLike: string -> bool)
    ensures prefix + path in FindInEntry(e, prefix, secretLike) <==> path != [] && EntryLeads(e, path, secretLike)
    decreases e, 0
  {
    var s := Key(e.key);
    var below := FindSecrets(e.value, prefix + [s], secretLike);
    SplitPath(prefix, s, path);
    assert prefix + path == prefix + [s] <==> path == [s] by {
      assert (prefix + path)[|prefix|..] == path && (prefix + [s])[|prefix|..] == [s];
    }
    if path != [] && path[0] == s {
      ScanIsExact(e.value, prefix + [s], path[1..], secretLike);
      assert |path| == 1 <==> path == [s];
      assert prefix + path in below <==> LeadsToSecret(e.value, path[1..], secretLike);
    } else if prefix + path in below {
      ReportBelow(e.value, prefix, s, path, secretLike);
    }
  }

  /** Content passes the scan exactly when no key at any depth looks like a secret. */
  lemma CleanMeansNoSecret(v: Content, secretLike: string -> bool)
    ensures FindSecrets(v, [], secretLike) == [] <==> forall path :: !LeadsToSecret(v, path, secretLike)
  {
    if FindSecrets(v, [], secretLike) == [] {
      forall path ensures !LeadsToSecret(v, path, secretLike) {
        ScanIsExact(v, [], path, secretLike);
        assert [] + path == path;
      }
    } else {
      var path := FindSecrets(v, [], secretLike)[0];
      ScanIsExact(v, [], path, secretLike);
      assert [] + path == path;
    }
  }

  // ----- the store -----

  datatype Promotion = Promotion(source: string, target: string, approvalRef: string)

  datatype Record = Record(
    id: string, environment: string, content: Content, confidence: real, updatedAt: int,
    provenance: seq<string>, promotion: Option<Promotion>)

  datatype Request = Request(id: string, source: string, target: string, approvalRef: Option<string>)

  datatype Verdict = NotFound | WrongSource | SameEnvironment | NeedsApproval | Promoted

  type Records = map<string, Record>

  /** `_validate_record`. */
  predicate Valid(r: Record, secretLike: string -> bool) {
    0.0 <= r.confidence <= 1.0 && FindSecrets(r.content, [], secretLike) == []
  }

  /** `write`; `None` where validation raises. */
  function Write(rs: Records, r: Record, now: int, secretLike: string -> bool): Option<Records> {
    if Valid(r, secretLike) then Some(rs[r.id := r.(updatedAt := now)]) else None
  }

  /** `can_promote`: any move between environments needs an approval reference. */
  function CanPromote(q: Request, r: Record): Verdict {
    if r.environment != q.source then WrongSource
    else if q.source == q.target then SameEnvironment
    else if q.approvalRef.GetOr("") == "" then NeedsApproval
    else Promoted
  }

  /** `promote`, storing the promoted copy under the fresh identifier `newId`. */
  function Promote(rs: Records, q: Request, newId: string, now: int): (Records, Verdict) {
    if q.id !in rs then (rs, NotFound)
    else
      var r := rs[q.id];
      var verdict := CanPromote(q, r);
      if verdict != Promoted then (rs, verdict)
      else
        var approval := q.approvalRef.GetOr("");
        var copy := r.(id := newId, environment := q.target, updatedAt := now,
                       provenance := r.provenance + [r.id, approval],
                       promotion := Some(Promotion(q.source, q.target, approval)));
        (rs[newId := copy], Promoted)
  }

  datatype Op =
    | DoWrite(record: Record, now: int)
    | DoPromote(request: Request, newId: string, now: int)

  function Apply(rs: Records, op: Op, secretLike: string -> bool): Records {
    match op
    case DoWrite(r, now) => Write(rs, r, now, secretLike).GetOr(rs)
    case DoPromote(q, newId, now) => Promote(rs, q, newId, now).0
  }

  function ApplyAll(rs: Records, ops: seq<Op>, secretLike: string -> bool): Records {
    if ops == [] then rs else Apply(ApplyAll(rs, ops[..|ops| - 1], secretLike), ops[|ops| - 1], secretLike)
  }

  /** Identifiers handed out by promotions are new. */
  ghost predicate FreshIds(rs: Records, ops: seq<Op>, secretLike: string -> bool) {
    forall i :: 0 <= i < |ops| && ops[i].DoPromote? ==> ops[i].newId !in ApplyAll(rs, ops[..i], secretLike)
  }

  /** Every stored record holds no secret at any depth and a confidence in range. */
  lemma {:induction false} StoreIsClean(ops: seq<Op>, secretLike: string -> bool, id: string, path: Path)
    requires id in ApplyAll(map[], ops, secretLike)
    ensures Valid(ApplyAll(map[], ops, secretLike)[id], secretLike)
    ensures !LeadsToSecret(ApplyAll(map[], ops, secretLike)[id].content, path, secretLike)
    decreases |ops|
  {
    var front := ops[..|ops| - 1];
    var before := ApplyAll(map[], front, secretLike);
    var op := ops[|ops| - 1];
    if id in before {
      StoreIsClean(front, secretLike, id, path);
    }
    if op.DoPromote? && op.request.id in before {
      StoreIsClean(front, secretLike, op.request.id, path);
    }
    CleanMeansNoSecret(ApplyAll(map[], ops, secretLike)[id].content, secretLike);
  }

  /** `r` is the copy a promotion made of `source`: same content, the trail ending with the source and the
      approval, and the move it made. */
  ghost predicate CopyOf(r: Record, source: Record, q: Request) {
    && q.approvalRef.Some? && q.approvalRef.value != ""
    && r.content == source.content && r.confidence == source.confidence
    && r.provenance == source.provenance + [source.id, q.approvalRef.value]
    && r.promotion == Some(Promotion(q.source, q.target, q.approvalRef.value))
    && source.environment == q.source != q.target == r.environment
  }

  /** A promotion needs an approval and stores a copy of its source; it leaves every other record as it was, and
      under a new identifier it changes no record at all. */
  lemma PromotionLeavesTrail(rs: Records, q: Request, newId: string, now: int)
    requires Promote(rs, q, newId, now).1 == Promoted
    ensures q.id in rs && newId in Promote(rs, q, newId, now).0
    ensures CopyOf(Promote(rs, q, newId, now).0[newId], rs[q.id], q)
    ensures Promote(rs, q, newId, now).0 - {newId} == rs - {newId}
  {
  }

  /** Records are stored under their own identifiers. */
  ghost predicate Keyed(rs: Records) {
    forall id :: id in rs ==> rs[id].id == id
  }

  lemma {:induction false} StaysKeyed(rs: Records, ops: seq<Op>, secretLike: string -> bool)
    requires Keyed(rs)
    ensures Keyed(ApplyAll(rs, ops, secretLike))
  {
    if ops != [] {
      StaysKeyed(rs, ops[..|ops| - 1], secretLike);
    }
  }

  /** Only a write under the same identifier can replace a record. */
  lemma OthersKeep(rs: Records, op: Op, secretLike: string -> bool, id: string)
    requires id in rs
    requires if op.DoWrite? then op.record.id != id else op.newId !in rs
    ensures id in Apply(rs, op, secretLike) && Apply(rs, op, secretLike)[id] == rs[id]
  {
  }

  lemma FreshIdsOfFront(rs: Records, ops: seq<Op>, secretLike: string -> bool)
    requires FreshIds(rs, ops, secretLike) && ops != []
    ensures FreshIds(rs, ops[..|ops| - 1], secretLike)
  {
    var front := ops[..|ops| - 1];
    assert forall j :: 0 <= j < |front| ==> front[..j] == ops[..j] && front[j] == ops[j];
  }

  /** Over any run in which no write reuses a promoted identifier, what a promotion stored stays the copy of
      the record it was made from, as that record was then. */
  lemma {:induction false} PromotionsAccounted(rs: Records, ops: seq<Op>, secretLike: string -> bool, i: nat)
    requires i < |ops| && ops[i].DoPromote?
    requires Promote(ApplyAll(rs, ops[..i], secretLike), ops[i].request, ops[i].newId, ops[i].now).1 == Promoted
    requires FreshIds(rs, ops, secretLike) && Keyed(rs)
    requires forall j :: i < j < |ops| && ops[j].DoWrite? ==> ops[j].record.id != ops[i].newId
    ensures var q := ops[i].request; var then_ := ApplyAll(rs, ops[..i], secretLike);
      && q.id in then_ && then_[q.id].id == q.id
      && ops[i].newId in ApplyAll(rs, ops, secretLike)
      && CopyOf(ApplyAll(rs, ops, secretLike)[ops[i].newId], then_[q.id], q)
    decreases |ops|
  {
    var n := |ops| - 1;
    StaysKeyed(rs, ops[..i], secretLike);
    if i == n {
      PromotionLeavesTrail(ApplyAll(rs, ops[..n], secretLike), ops[n].request, ops[n].newId, ops[n].now);
    } else {
      var front := ops[..n];
      assert front[..i] == ops[..i] && front[i] == ops[i];
      FreshIdsOfFront(rs, ops, secretLike);
      PromotionsAccounted(rs, front, secretLike, i);
      OthersKeep(ApplyAll(rs, front, secretLike), ops[n], secretLike, ops[i].newId);
    }
  }

  // ----- the verdict of a promotion, written out -----

  /** A promotion happens exactly for a stored record of the source environment, to another environment, with an
      approval that is not empty; else nothing changes. */
  lemma PromotedIff(rs: Records, q: Request, newId: string, now: int)
    ensures var (t, verdict) := Promote(rs, q, newId, now);
      var here := q.id in rs && rs[q.id].environment == q.source;
      && (verdict == NotFound <==> q.id !in rs)
      && (verdict == WrongSource <==> q.id in rs && rs[q.id].environment != q.source)
      && (verdict == SameEnvironment <==> here && q.source == q.target)
      && (verdict == NeedsApproval <==> here && q.source != q.target && q.approvalRef in {None, Some("")})
      && (verdict == Promoted <==> here && q.source != q.target && q.approvalRef.Some? && q.approvalRef.value != "")
      && (verdict != Promoted ==> t == rs)
  {
  }

  /** A record is stored, under its identifier and stamped, exactly when its confidence is between 0 and 1 and no
      path leads to a secret-like key. */
  lemma WrittenIff(rs: Records, r: Record, now: int, secretLike: string -> bool)
    ensures Write(rs, r, now, secretLike).Some? <==>
      0.0 <= r.confidence <= 1.0 && forall path :: !LeadsToSecret(r.content, path, secretLike)
    ensures Write(rs, r, now, secretLike).Some? ==>
      Write(rs, r, now, secretLike).value == rs[r.id := r.(updatedAt := now)]
  {
    CleanMeansNoSecret(r.content, secretLike);
  }

  // ----- the store object -----

  class InMemoryMemoryStore {
    var records: Records

    constructor ()
      ensures records == map[]
    {
      records := map[];
    }

    method WriteRecord(r: Record, now: int, secretLike: string -> bool) returns (stored: Option<Record>)
      modifies this
      ensures records == Write(old(records), r, now, secretLike).GetOr(old(records))
      ensures stored == if Valid(r, secretLike) then Some(r.(updatedAt := now)) else None
    {
      if !(0.0 <= r.confidence <= 1.0) {
        return None;
      }
      if FindSecrets(r.content, [], secretLike) != [] {
        return None;
      }
      var s := r.(updatedAt := now);
      records := records[s.id := s];
      return Some(s);
    }

    method PromoteRecord(q: Request, newId: string, now: int) returns (verdict: Verdict)
      modifies this
      ensures (records, verdict) == Promote(old(records), q, newId, now)
    {
      if q.id !in records {
        return NotFound;
      }
      var r := records[q.id];
      verdict := CanPromote(q, r);
      if verdict != Promoted {
        return;
      }
      var approval := q.approvalRef.GetOr("");
      var copy := r.(id := newId, environment := q.target, updatedAt := now,
                     provenance := r.provenance + [r.id, approval],
                     promotion := Some(Promotion(q.source, q.target, approval)));
      records := records[newId := copy];
    }
  }
}
