/** Long-term memory over a vector store: composite record ids, and a scope filter on every read. */
module Memory {
  import opened Common

  datatype Triple = Triple(tenant: string, user: string, key: string)

  datatype Record = Record(document: string, metadata: map<string, string>)

  const NAMESPACE := "long_term_memory"

  function RecordId(t: Triple): string {
    t.tenant + ":" + t.user + ":" + t.key
  }

  // ---- the filter of the store ----

  /** A flat filter, in dictionary order, and its translation. */
  datatype ChromaWhere = NoFilter | Equals(field: string, value: string) | And(clauses: seq<(string, string)>)

  function ToChromaWhere(filter: seq<(string, string)>): ChromaWhere {
    if filter == [] then NoFilter
    else if |filter| == 1 then Equals(filter[0].0, filter[0].1)
    else And(filter)
  }

  predicate Matches(metadata: map<string, string>, field: string, value: string) {
    field in metadata && metadata[field] == value
  }

  predicate Selected(w: ChromaWhere, metadata: map<string, string>) {
    match w
    case NoFilter => true
    case Equals(field, value) => Matches(metadata, field, value)
    case And(clauses) => forall i | 0 <= i < |clauses| :: Matches(metadata, clauses[i].0, clauses[i].1)
  }

  /** The translation means the plain conjunction of equalities. */
  lemma FilterIsConjunction(filter: seq<(string, string)>, metadata: map<string, string>)
    ensures Selected(ToChromaWhere(filter), metadata) <==>
              forall i | 0 <= i < |filter| :: Matches(metadata, filter[i].0, filter[i].1)
  {
    if |filter| == 1 {
      assert Matches(metadata, filter[0].0, filter[0].1) ==>
               forall i | 0 <= i < |filter| :: Matches(metadata, filter[i].0, filter[i].1);
    }
  }

  function ScopeWhere(t: Triple): seq<(string, string)> {
    [("user_id", t.user), ("tenant_id", t.tenant), ("namespace", NAMESPACE)]
  }

  function MetadataOf(t: Triple): map<string, string> {
    map["key" := t.key, "user_id" := t.user, "tenant_id" := t.tenant, "namespace" := NAMESPACE]
  }

  /** A record is in scope exactly when it was written by the same user of the same tenant. */
  lemma InScopeIff(t: Triple, owner: Triple)
    ensures Selected(ToChromaWhere(ScopeWhere(t)), MetadataOf(owner)) <==> t.user == owner.user && t.tenant == owner.tenant
  {
    var filter, metadata := ScopeWhere(t), MetadataOf(owner);
    FilterIsConjunction(filter, metadata);
    assert Matches(metadata, filter[0].0, filter[0].1) == (t.user == owner.user);
    assert Matches(metadata, filter[1].0, filter[1].1) == (t.tenant == owner.tenant);
    assert Matches(metadata, filter[2].0, filter[2].1);
  }

  // ---- the memory ----

  datatype Op = Save(triple: Triple, text: string) | Delete(triple: Triple)

  type Store = map<string, Record>

  function Apply(store: Store, op: Op): Store {
    match op
    case Save(t, text) => store[RecordId(t) := Record(text, MetadataOf(t))]
    case Delete(t) => store - {RecordId(t)}
  }

  /** An empty document reads as nothing. */
  function Lookup(store: Store, t: Triple): Option<string> {
    var id := RecordId(t);
    if id in store && Selected(ToChromaWhere(ScopeWhere(t)), store[id].metadata) && store[id].document != ""
    then Some(store[id].document) else None
  }

  class VectorLongTermMemory {
    var store: Store

    constructor ()
      ensures store == map[]
    {
      store := map[];
    }

    /** The old record of the same id is deleted first. */
    method Save(t: Triple, text: string)
      modifies this
      ensures store == Apply(old(store), Op.Save(t, text))
    {
      var id := RecordId(t);
      store := store - {id};
      store := store[id := Record(text, MetadataOf(t))];
    }

    method Get(t: Triple) returns (text: Option<string>)
      ensures text == Lookup(store, t)
    {
      var id := RecordId(t);
      if id in store && Selected(ToChromaWhere(ScopeWhere(t)), store[id].metadata) {
        if store[id].document != "" {
          return Some(store[id].document);
        }
      }
      return None;
    }

    /** Deletion goes by id alone, without the scope filter. */
    method Delete(t: Triple)
      modifies this
      ensures store == Apply(old(store), Op.Delete(t))
    {
      store := store - {RecordId(t)};
    }
  }

  // ---- refinement of a plain map ----

  function StoreAfter(ops: seq<Op>): Store {
    if ops == [] then map[] else Apply(StoreAfter(ops[..|ops| - 1]), ops[|ops| - 1])
  }

  function Texts(op: Op): Option<string> {
    if op.Save? && op.text != "" then Some(op.text) else None
  }

  /** What a plain map keyed by the triple answers. */
  function PlainGet(ops: seq<Op>, t: Triple): Option<string> {
    if ops == [] then None
    else if ops[|ops| - 1].triple == t then Texts(ops[|ops| - 1])
    else PlainGet(ops[..|ops| - 1], t)
  }

  /** The last operation on a record id. */
  function LastOn(ops: seq<Op>, id: string): Option<Op> {
    if ops == [] then None
    else if RecordId(ops[|ops| - 1].triple) == id then Some(ops[|ops| - 1])
    else LastOn(ops[..|ops| - 1], id)
  }

  lemma SameIdSameScope(t: Triple, owner: Triple)
    requires RecordId(t) == RecordId(owner)
    ensures t == owner <==> t.user == owner.user && t.tenant == owner.tenant
  {
    if t.user == owner.user && t.tenant == owner.tenant {
      var prefix := t.tenant + ":" + t.user + ":";
      assert RecordId(t)[|prefix|..] == t.key;
      assert RecordId(owner)[|prefix|..] == owner.key;
    }
  }

  /** The record kept under an id is the text of the last operation on it. */
  lemma {:induction false} StoreHoldsLast(ops: seq<Op>, id: string)
    ensures var last := LastOn(ops, id);
            if last.Some? && last.value.Save?
            then id in StoreAfter(ops) && StoreAfter(ops)[id] == Record(last.value.text, MetadataOf(last.value.triple))
                 && RecordId(last.value.triple) == id
            else id !in StoreAfter(ops)
  {
    if ops != [] {
      StoreHoldsLast(ops[..|ops| - 1], id);
    }
  }

  /** A read answers the last operation on the record id if that was for this very triple, and
      otherwise nothing. */
  lemma GetIsLastOnId(ops: seq<Op>, t: Triple)
    ensures var last := LastOn(ops, RecordId(t));
            Lookup(StoreAfter(ops), t) == if last.Some? && last.value.triple == t then Texts(last.value) else None
  {
    StoreHoldsLast(ops, RecordId(t));
    var last := LastOn(ops, RecordId(t));
    if last.Some? && last.value.Save? {
      InScopeIff(t, last.value.triple);
      SameIdSameScope(t, last.value.triple);
    }
  }

  lemma {:induction false} PlainGetIsLastOnId(ops: seq<Op>, t: Triple)
    ensures var last := LastOn(ops, RecordId(t));
            last.None? || last.value.triple == t ==> PlainGet(ops, t) == if last.Some? then Texts(last.value) else None
  {
    if ops != [] {
      PlainGetIsLastOnId(ops[..|ops| - 1], t);
    }
  }

  /** Isolation, whatever ids collide: a read gives nothing, or what the plain map gives for
      exactly that triple. */
  lemma GetNeverLeaks(ops: seq<Op>, t: Triple)
    ensures Lookup(StoreAfter(ops), t) == None || Lookup(StoreAfter(ops), t) == PlainGet(ops, t)
  {
    GetIsLastOnId(ops, t);
    PlainGetIsLastOnId(ops, t);
  }

  /** The exact condition for the memory to agree with the plain map: there is nothing to find, or
      the last operation on the record id was for this triple. */
  lemma GetAgreesIff(ops: seq<Op>, t: Triple)
    ensures Lookup(StoreAfter(ops), t) == PlainGet(ops, t) <==>
              PlainGet(ops, t) == None || (LastOn(ops, RecordId(t)).Some? && LastOn(ops, RecordId(t)).value.triple == t)
  {
    GetIsLastOnId(ops, t);
    PlainGetIsLastOnId(ops, t);
  }

  // ---- collisions of record ids ----

  predicate HasColon(s: string) {
    exists i | 0 <= i < |s| :: s[i] == ':'
  }

  predicate CleanScope(t: Triple) {
    !HasColon(t.tenant) && !HasColon(t.user)
  }

  lemma FirstColonSplits(a: string, b: string, a': string, b': string)
    requires !HasColon(a) && !HasColon(a') && a + ":" + b == a' + ":" + b'
    ensures a == a' && b == b'
  {
    var s := a + ":" + b;
    assert s[|a|] == ':' && s[|a'|] == ':';
    assert forall i | 0 <= i < |a| :: s[i] == a[i];
    assert forall i | 0 <= i < |a'| :: s[i] == a'[i];
    assert |a| == |a'|;
    assert a == s[..|a|] && a' == s[..|a'|];
    assert b == s[|a| + 1..] && b' == s[|a'| + 1..];
  }

  /** Without a colon in tenant and user the id determines the triple; keys may hold colons. */
  lemma CleanIdsAreInjective(t: Triple, u: Triple)
    requires CleanScope(t) && CleanScope(u) && RecordId(t) == RecordId(u)
    ensures t == u
  {
    IdGroups(t.tenant, t.user, t.key);
    IdGroups(u.tenant, u.user, u.key);
    FirstColonSplits(t.tenant, t.user + ":" + t.key, u.tenant, u.user + ":" + u.key);
    FirstColonSplits(t.user, t.key, u.user, u.key);
  }

  /** With clean scopes only, the memory is the plain map. */
  lemma {:induction false} CleanScopesRefinePlainMap(ops: seq<Op>, t: Triple)
    requires CleanScope(t) && forall op | op in ops :: CleanScope(op.triple)
    ensures Lookup(StoreAfter(ops), t) == PlainGet(ops, t)
  {
    LastOnIsClean(ops, RecordId(t));
    var last := LastOn(ops, RecordId(t));
    if last.Some? {
      CleanIdsAreInjective(t, last.value.triple);
    }
    GetIsLastOnId(ops, t);
    PlainGetIsLastOnId(ops, t);
  }

  lemma {:induction false} LastOnIsClean(ops: seq<Op>, id: string)
    ensures LastOn(ops, id).Some? ==> LastOn(ops, id).value in ops && RecordId(LastOn(ops, id).value.triple) == id
  {
    if ops != [] {
      LastOnIsClean(ops[..|ops| - 1], id);
    }
  }

  function FirstColon(s: string): (i: nat)
    requires HasColon(s)
    ensures i < |s| && s[i] == ':'
    ensures forall j | 0 <= j < i :: s[j] != ':'
  {
    if s[0] == ':' then 0
    else
      assert HasColon(s[1..]) by {
        var i :| 0 <= i < |s| && s[i] == ':';
        assert s[1..][i - 1] == ':';
      }
      1 + FirstColon(s[1..])
  }

  /** The text before the first colon. */
  function BeforeColon(s: string): (a: string)
    requires HasColon(s)
    ensures |a| < |s| && s == a + ":" + s[|a| + 1..] && !HasColon(a)
  {
    s[..FirstColon(s)]
  }

  lemma IdGroups(tenant: string, user: string, key: string)
    ensures RecordId(Triple(tenant, user, key)) == tenant + ":" + (user + ":" + key)
  {
  }

  lemma TwoColons(id: string, i: nat, j: nat)
    requires i < j < |id| && id[i] == id[j] == ':'
    ensures HasColon(id) && HasColon(id[|BeforeColon(id)| + 1..])
  {
    assert HasColon(id);
    var a := BeforeColon(id);
    assert forall k | 0 <= k < |a| :: a[k] == id[k];
    assert |a| <= i;
    assert id[|a| + 1..][j - |a| - 1] == ':';
  }

  lemma IdHasTwoColons(t: Triple)
    ensures |t.tenant| + 1 + |t.user| < |RecordId(t)|
    ensures RecordId(t)[|t.tenant|] == ':' == RecordId(t)[|t.tenant| + 1 + |t.user|]
  {
  }

  /** Every record id belongs to a triple of clean scope. */
  lemma EveryIdIsClean(id: string) returns (u: Triple)
    requires HasColon(id) && HasColon(id[|BeforeColon(id)| + 1..])
    ensures CleanScope(u) && RecordId(u) == id
  {
    var tenant := BeforeColon(id);
    var rest := id[|tenant| + 1..];
    var user := BeforeColon(rest);
    var key := rest[|user| + 1..];
    u := Triple(tenant, user, key);
    IdGroups(tenant, user, key);
  }

  /** The exact condition for a scope to be safe: its triples share no id with another triple of a
      clean scope if and only if it has no colon itself. */
  lemma ScopeIsSafeIff(t: Triple)
    ensures CleanScope(t) <==> forall u | CleanScope(u) && RecordId(u) == RecordId(t) :: u == t
  {
    if CleanScope(t) {
      forall u | CleanScope(u) && RecordId(u) == RecordId(t) ensures u == t {
        CleanIdsAreInjective(u, t);
      }
    } else {
      IdHasTwoColons(t);
      TwoColons(RecordId(t), |t.tenant|, |t.tenant| + 1 + |t.user|);
      var u := EveryIdIsClean(RecordId(t));
      assert CleanScope(u) && u != t;
    }
  }

  /** What a collision costs: an operation on another triple of the same id hides what was saved. */
  lemma CollisionHides(ops: seq<Op>, t: Triple, op: Op)
    requires op.triple != t && RecordId(op.triple) == RecordId(t)
    ensures Lookup(StoreAfter(ops + [op]), t) == None
    ensures PlainGet(ops + [op], t) == PlainGet(ops, t)
  {
    assert (ops + [op])[..|ops|] == ops;
    GetIsLastOnId(ops + [op], t);
  }
}
