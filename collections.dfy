/**
 * The collections page: turning the `GET /collections` body into a list,
 * choosing the label of each card, and the fetch and delete handlers acting on
 * the page's `collections`, `loading` and `error` state.
 */
module Collections {
  import opened Json
  import opened Http
  import Text

  /** The spread source of `typeof v === 'object' ? v : {}`: `null`, strings, numbers and booleans spread nothing. */
  function SpreadSource(v: Value): seq<(string, Value)> {
    match v
    case Obj(fields) => fields
    case Arr(items) => IndexFields(items)
    case _ => []
  }

  /** The entry `{ name: key, ...(typeof v === 'object' ? v : {}) }` made for one key of an object body. */
  function KeyedEntry(key: string, v: Value): Value {
    Obj(Spread([("name", Str(key))], SpreadSource(v)))
  }

  /** `Object.keys(data).map(...)`: one entry per property, in property order. */
  function KeyedEntries(fields: seq<(string, Value)>): seq<Value> {
    seq(|fields|, i requires 0 <= i < |fields| => KeyedEntry(fields[i].0, fields[i].1))
  }

  /** The list the page shows for a successfully fetched body. */
  function Normalise(body: Value): seq<Value> {
    match body
    case Arr(items) => items
    case Obj(fields) =>
      var listed := Lookup(fields, "collections");
      var data := Lookup(fields, "data");
      if listed.Arr? then listed.items
      else if data.Arr? then data.items
      else KeyedEntries(fields)
    case _ => []
  }

  /** The four shapes of body and the list each one yields. */
  lemma NormaliseShapes(body: Value)
    ensures body.Arr? ==> Normalise(body) == body.items
    ensures body.Obj? && Lookup(body.fields, "collections").Arr? ==>
            Normalise(body) == Lookup(body.fields, "collections").items
    ensures body.Obj? && !Lookup(body.fields, "collections").Arr? && Lookup(body.fields, "data").Arr? ==>
            Normalise(body) == Lookup(body.fields, "data").items
    ensures !body.Arr? && !body.Obj? ==> Normalise(body) == []
  {
  }

  /** The `name` of an entry made from a key: the value's own `name` when it has one, else the key. */
  lemma {:induction false} KeyedEntryName(key: string, v: Value)
    requires v.Obj? ==> DistinctKeys(v.fields)
    ensures Get(KeyedEntry(key, v), "name") ==
            if v.Obj? && HasKey(v.fields, "name") then Lookup(v.fields, "name") else Str(key)
  {
    var src := SpreadSource(v);
    if v.Arr? {
      IndexFieldsDistinct(v.items);
      forall i | 0 <= i < |src| ensures src[i].0 != "name" {
        assert src[i].0 == Text.NatToString(i);
        assert Text.IsDigit(src[i].0[0]);
      }
    }
    LookupSpread([("name", Str(key))], src, "name");
  }

  /** An object body that lists no array yields one entry per key, in key order, named as `KeyedEntryName` says. */
  lemma {:induction false} NormaliseObjectBody(fields: seq<(string, Value)>)
    requires !Lookup(fields, "collections").Arr? && !Lookup(fields, "data").Arr?
    requires forall i :: 0 <= i < |fields| && fields[i].1.Obj? ==> DistinctKeys(fields[i].1.fields)
    ensures |Normalise(Obj(fields))| == |fields|
    ensures forall i :: 0 <= i < |fields| ==> Normalise(Obj(fields))[i] == KeyedEntry(fields[i].0, fields[i].1)
    ensures forall i :: 0 <= i < |fields| ==>
              Get(Normalise(Obj(fields))[i], "name") ==
              if fields[i].1.Obj? && HasKey(fields[i].1.fields, "name") then Lookup(fields[i].1.fields, "name")
              else Str(fields[i].0)
  {
    forall i | 0 <= i < |fields|
      ensures Get(KeyedEntry(fields[i].0, fields[i].1), "name") ==
              if fields[i].1.Obj? && HasKey(fields[i].1.fields, "name") then Lookup(fields[i].1.fields, "name")
              else Str(fields[i].0)
    {
      KeyedEntryName(fields[i].0, fields[i].1);
    }
  }

  /** The fields the card title is taken from, in the order they are tried. */
  const NameFields: seq<string> := ["name", "collection_name", "id", "title"]

  /** `Collection ${index + 1}`. */
  function DefaultLabel(index: nat): string {
    "Collection " + Text.NatToString(index + 1)
  }

  /** The card title of the entry at position `index`. */
  function DisplayName(c: Value, index: nat): Value {
    OrChain(seq(|NameFields|, i requires 0 <= i < |NameFields| => Get(c, NameFields[i])),
            if c.Str? then c else Str(DefaultLabel(index)))
  }

  /** The title is the first truthy of the name fields, else a string entry itself, else the positional label. */
  lemma {:induction false} DisplayNameFallback(c: Value, index: nat, k: nat)
    requires k <= |NameFields|
    requires forall i :: 0 <= i < k ==> !Truthy(Get(c, NameFields[i]))
    ensures k < |NameFields| && Truthy(Get(c, NameFields[k])) ==> DisplayName(c, index) == Get(c, NameFields[k])
    ensures k == |NameFields| ==> DisplayName(c, index) == if c.Str? then c else Str(DefaultLabel(index))
  {
    var xs := seq(|NameFields|, i requires 0 <= i < |NameFields| => Get(c, NameFields[i]));
    var last := if c.Str? then c else Str(DefaultLabel(index));
    if k < |NameFields| && Truthy(Get(c, NameFields[k])) {
      OrChainPicksFirstTruthy(xs, last, k);
    }
    if k == |NameFields| {
      OrChainFallsThrough(xs, last);
    }
  }

  /** Only an empty-string entry gets an empty (falsy) title. */
  lemma {:induction false} DisplayNameFalsyOnlyForEmptyString(c: Value, index: nat)
    ensures !Truthy(DisplayName(c, index)) ==> c == Str("")
  {
    var k := 0;
    while k < |NameFields| && !Truthy(Get(c, NameFields[k]))
      invariant k <= |NameFields|
      invariant forall i :: 0 <= i < k ==> !Truthy(Get(c, NameFields[i]))
    {
      k := k + 1;
    }
    DisplayNameFallback(c, index, k);
  }

  /** Positional labels of different positions differ. */
  lemma DefaultLabelsDistinct(i: nat, j: nat)
    ensures DefaultLabel(i) == DefaultLabel(j) ==> i == j
  {
    if DefaultLabel(i) == DefaultLabel(j) {
      var p := "Collection ";
      assert DefaultLabel(i)[|p|..] == Text.NatToString(i + 1);
      assert DefaultLabel(j)[|p|..] == Text.NatToString(j + 1);
      Text.NatToStringInjective(i + 1, j + 1);
    }
  }

  /** A card made from a non-empty key whose value carries no `name` of its own is titled by the key. */
  lemma {:induction false} KeyedEntryTitle(fields: seq<(string, Value)>, i: nat)
    requires !Lookup(fields, "collections").Arr? && !Lookup(fields, "data").Arr?
    requires forall j :: 0 <= j < |fields| && fields[j].1.Obj? ==> DistinctKeys(fields[j].1.fields)
    requires i < |fields| && fields[i].0 != ""
    requires !(fields[i].1.Obj? && HasKey(fields[i].1.fields, "name"))
    ensures DisplayName(Normalise(Obj(fields))[i], i) == Str(fields[i].0)
  {
    NormaliseObjectBody(fields);
    DisplayNameFallback(Normalise(Obj(fields))[i], i, 0);
  }

  /** `collection.name !== collectionName`. */
  predicate Keeps(c: Value, name: string) {
    Get(c, "name") != Str(name)
  }

  /** `prev.filter(collection => collection.name !== collectionName)`. */
  function RemoveNamed(cs: seq<Value>, name: string): (r: seq<Value>)
    ensures |r| <= |cs|
    ensures forall c :: c in r <==> c in cs && Keeps(c, name)
    decreases |cs|
  {
    if cs == [] then []
    else (if Keeps(cs[0], name) then [cs[0]] else []) + RemoveNamed(cs[1..], name)
  }

  /** Filtering works piecewise, so the kept entries stay in their original order. */
  lemma {:induction false} RemoveNamedAppend(a: seq<Value>, b: seq<Value>, name: string)
    ensures RemoveNamed(a + b, name) == RemoveNamed(a, name) + RemoveNamed(b, name)
    decreases |a|
  {
    if a == [] {
      assert a + b == b;
    } else {
      assert (a + b)[0] == a[0];
      assert (a + b)[1..] == a[1..] + b;
      RemoveNamedAppend(a[1..], b, name);
    }
  }

  /** A list with no entry of that name is left as it is. */
  lemma {:induction false} RemoveNamedAbsent(cs: seq<Value>, name: string)
    requires forall i :: 0 <= i < |cs| ==> Keeps(cs[i], name)
    ensures RemoveNamed(cs, name) == cs
    decreases |cs|
  {
    if cs != [] {
      RemoveNamedAbsent(cs[1..], name);
    }
  }

  /** Deleting twice removes no more than deleting once. */
  lemma {:induction false} RemoveNamedIdempotent(cs: seq<Value>, name: string)
    ensures RemoveNamed(RemoveNamed(cs, name), name) == RemoveNamed(cs, name)
  {
    var r := RemoveNamed(cs, name);
    forall i | 0 <= i < |r| ensures Keeps(r[i], name) {
      assert r[i] in r;
    }
    RemoveNamedAbsent(r, name);
  }

  /** Deleting such a card by its title takes it out of the list. */
  lemma {:induction false} DeleteByTitleRemovesCard(fields: seq<(string, Value)>, i: nat)
    requires !Lookup(fields, "collections").Arr? && !Lookup(fields, "data").Arr?
    requires forall j :: 0 <= j < |fields| && fields[j].1.Obj? ==> DistinctKeys(fields[j].1.fields)
    requires i < |fields| && fields[i].0 != ""
    requires !(fields[i].1.Obj? && HasKey(fields[i].1.fields, "name"))
    ensures Normalise(Obj(fields))[i] !in RemoveNamed(Normalise(Obj(fields)), fields[i].0)
  {
    NormaliseObjectBody(fields);
  }

  /**
   * Deletion matches on `name`, while the Delete button passes the card's title.
   * A card titled by `collection_name` keeps its place after a successful delete of its title.
   */
  lemma {:induction false} TitledByCollectionNameSurvivesDelete(cs: seq<Value>, c: Value, index: nat, t: string)
    requires c in cs
    requires !Truthy(Get(c, "name"))
    requires Get(c, "collection_name") == Str(t) && t != ""
    ensures DisplayName(c, index) == Str(t)
    ensures c in RemoveNamed(cs, t)
  {
    DisplayNameFallback(c, index, 1);
  }

  /** `HTTP error! status: ${response.status}`, the message thrown for a non-ok response. */
  function HttpErrorMessage(status: nat): (m: string)
    ensures |m| > 20 && m[..20] == "HTTP error! status: "
    ensures forall i :: 20 <= i < |m| ==> Text.IsDigit(m[i])
    ensures Text.DigitsValue(m[20..]) == status
  {
    var d := Text.NatToString(status);
    Text.DigitsValueOfNatToString(status);
    assert ("HTTP error! status: " + d)[20..] == d;
    "HTTP error! status: " + d
  }

  /** `err.message` for a failed request: the page's own HTTP error, or the thrown error's message. */
  function FailureMessage(outcome: Outcome): string
    requires !outcome.Ok?
  {
    match outcome
    case NotOk(status, _, _) => HttpErrorMessage(status)
    case Thrown(_, message) => message
  }

  class CollectionsPage {
    var collections: seq<Value>
    var loading: bool
    var error: string

    constructor ()
      ensures collections == [] && !loading && error == ""
    {
      collections := [];
      loading := false;
      error := "";
    }

    /** `fetchCollections` up to the `await`. */
    method BeginFetch()
      modifies this
      ensures loading && error == "" && collections == old(collections)
    {
      loading := true;
      error := "";
    }

    /** `fetchCollections` after the request settled with `outcome`. */
    method CompleteFetch(outcome: Outcome)
      modifies this
      ensures !loading
      ensures outcome.Ok? ==> collections == Normalise(outcome.body) && error == old(error)
      ensures !outcome.Ok? ==>
                collections == old(collections) &&
                error == "Failed to fetch collections: " + FailureMessage(outcome)
    {
      match outcome {
        case Ok(body) =>
          collections := Normalise(body);
        case NotOk(_, _, _) =>
          error := "Failed to fetch collections: " + FailureMessage(outcome);
        case Thrown(_, _) =>
          error := "Failed to fetch collections: " + FailureMessage(outcome);
      }
      loading := false;
    }

    /** One whole fetch that no other fetch overlaps. */
    method FetchCollections(outcome: Outcome)
      modifies this
      ensures !loading
      ensures outcome.Ok? ==> collections == Normalise(outcome.body) && error == ""
      ensures !outcome.Ok? ==>
                collections == old(collections) &&
                error == "Failed to fetch collections: " + FailureMessage(outcome)
    {
      BeginFetch();
      CompleteFetch(outcome);
    }

    /**
     * `deleteCollection(name)`: `confirmed` is the answer to the confirmation
     * dialog and `outcome` what the DELETE request settled with.
     */
    method DeleteCollection(name: string, confirmed: bool, outcome: Outcome)
      modifies this
      ensures loading == old(loading)
      ensures !confirmed ==> collections == old(collections) && error == old(error)
      ensures confirmed && outcome.Ok? ==>
                collections == RemoveNamed(old(collections), name) && error == old(error)
      ensures confirmed && !outcome.Ok? ==>
                collections == old(collections) &&
                error == "Failed to delete collection: " + FailureMessage(outcome)
    {
      if !confirmed {
        return;
      }
      if outcome.Ok? {
        collections := RemoveNamed(collections, name);
      } else {
        error := "Failed to delete collection: " + FailureMessage(outcome);
      }
    }
  }
}
