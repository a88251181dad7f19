/**
 * The bulk replace of the stored server list (`PUT` in
 * src/app/api/servers/route.ts): the request body must be an array; its
 * items are keyed by `kind:host` with the host trimmed and lower-cased, the
 * last item of each key wins and keys keep the position of their first
 * item, as a JavaScript `Map` keeps them. Reading and writing the data file
 * and the HTTP response objects are not part of this model: the method
 * returns what would be written.
 */
module Servers {
  import opened Wrappers
  import opened Text

  /** A parsed JSON value. Numbers are integers in this model. */
  datatype Json =
    | JNull
    | JBool(b: bool)
    | JNum(n: int)
    | JStr(s: string)
    | JArr(elems: seq<Json>)
    | JObj(fields: map<string, Json>)

  /** JavaScript truthiness of a property that may be missing (`undefined`). */
  predicate Truthy(v: Option<Json>) {
    match v
    case None => false
    case Some(JNull) => false
    case Some(JBool(b)) => b
    case Some(JNum(n)) => n != 0
    case Some(JStr(s)) => s != ""
    case Some(JArr(_)) => true
    case Some(JObj(_)) => true
  }

  /** A property read `item.name`: only objects have the properties a JSON record can carry. */
  function Prop(item: Json, name: string): Option<Json> {
    if item.JObj? && name in item.fields then Some(item.fields[name]) else None
  }

  /** The decimal digits of a natural number. */
  function Digits(n: nat): (r: string)
    ensures r != ""
  {
    if n < 10 then ["0123456789"[n]] else Digits(n / 10) + ["0123456789"[n % 10]]
  }

  /** `String(v)` of a JSON value, as a template literal `${v}` writes it. */
  function ToText(v: Json): string {
    match v
    case JNull => "null"
    case JBool(b) => if b then "true" else "false"
    case JNum(n) => if n < 0 then "-" + Digits(-n) else Digits(n)
    case JStr(s) => s
    case JArr(a) => JoinElems(a)
    case JObj(_) => "[object Object]"
  }

  /** `Array.prototype.join` with commas, where `null` elements are written as nothing. */
  function JoinElems(a: seq<Json>): string
    decreases a
  {
    if a == [] then ""
    else
      var first := if a[0].JNull? then "" else ToText(a[0]);
      if |a| == 1 then first else first + "," + JoinElems(a[1..])
  }

  /**
   * Whether `String(v)` throws a `TypeError`. A parsed object with its own
   * `toString` key has a plain value there, so neither `toString` nor the
   * inherited `valueOf` (which returns the object) gives a primitive. An
   * array throws when one of its elements does, since `join` converts each.
   */
  predicate TextThrows(v: Json)
    decreases v
  {
    match v
    case JObj(fields) => "toString" in fields
    case JArr(a) => ElemsThrow(a)
    case _ => false
  }

  /** Whether converting some element of an array to text throws. */
  predicate ElemsThrow(a: seq<Json>)
    decreases a
  {
    a != [] && (TextThrows(a[0]) || ElemsThrow(a[1..]))
  }

  /** What the loop of `PUT` makes of one item of the body. */
  datatype Slot =
    | Skip            // not an object, no kind, or no host once trimmed: left out
    | Keyed(key: string)  // kept under `kind:host`
    | Fails           // `trim` on a host that is not a string, or `${kind}`, throws

  /**
   * Lines 46-50 for one item: a non-object (or `null`) is skipped; a host
   * that is missing or `null` gives `undefined`; a host that is neither
   * that nor a string makes `.trim()` throw; otherwise the item is kept
   * when its kind is truthy and its trimmed, lower-cased host is non-empty,
   * unless writing the kind into the key throws.
   */
  function Classify(item: Json): Slot
  {
    if !(item.JObj? || item.JArr?) then Skip
    else
      var kind := Prop(item, "kind");
      match Prop(item, "host")
      case None => Skip
      case Some(JNull) => Skip
      case Some(JStr(h)) => KeyFor(kind, Lower(Trim(h)))
      case Some(_) => Fails
  }

  /** Line 49-50 for an item with a string host, given its kind and its trimmed, lower-cased host. */
  function KeyFor(kind: Option<Json>, host: string): Slot {
    if !Truthy(kind) || host == "" then Skip
    else if TextThrows(kind.value) then Fails
    else Keyed(ToText(kind.value) + ":" + host)
  }

  /** Whether some item makes the loop throw. */
  predicate Aborts(items: seq<Json>) {
    exists i :: 0 <= i < |items| && Classify(items[i]).Fails?
  }

  /** The first index of an item with this key, or -1. */
  function FirstWithKey(items: seq<Json>, k: string): (i: int)
    ensures -1 <= i < |items|
    ensures i == -1 <==> forall j :: 0 <= j < |items| ==> Classify(items[j]) != Keyed(k)
    ensures 0 <= i ==> Classify(items[i]) == Keyed(k) && forall j :: 0 <= j < i ==> Classify(items[j]) != Keyed(k)
    decreases |items|
  {
    if items == [] then -1
    else
      var init := items[..|items| - 1];
      assert forall j :: 0 <= j < |init| ==> init[j] == items[j];
      var f := FirstWithKey(init, k);
      if f != -1 then f
      else if Classify(items[|items| - 1]) == Keyed(k) then |items| - 1
      else -1
  }

  /** The last index of an item with this key, or -1. */
  function LastWithKey(items: seq<Json>, k: string): (i: int)
    ensures -1 <= i < |items|
    ensures i == -1 <==> forall j :: 0 <= j < |items| ==> Classify(items[j]) != Keyed(k)
    ensures 0 <= i ==> Classify(items[i]) == Keyed(k) && forall j :: i < j < |items| ==> Classify(items[j]) != Keyed(k)
    decreases |items|
  {
    if items == [] then -1
    else if Classify(items[|items| - 1]) == Keyed(k) then |items| - 1
    else
      var init := items[..|items| - 1];
      assert forall j :: 0 <= j < |init| ==> init[j] == items[j];
      assert items == init + [items[|items| - 1]];
      LastWithKey(init, k)
  }

  /** The keys of the `Map` after the loop, in its iteration order. */
  function KeyOrder(items: seq<Json>): (r: seq<string>)
    ensures |r| <= |items|
    decreases |items|
  {
    if items == [] then []
    else
      var o := KeyOrder(items[..|items| - 1]);
      match Classify(items[|items| - 1])
      case Keyed(k) => if k in o then o else o + [k]
      case _ => o
  }

  /** Every key of the items once, ordered by where it first occurs. */
  lemma {:induction false} KeyOrderIsFirstSeen(items: seq<Json>)
    ensures forall k :: k in KeyOrder(items) <==> FirstWithKey(items, k) != -1
    ensures forall a, b :: 0 <= a < b < |KeyOrder(items)| ==>
      FirstWithKey(items, KeyOrder(items)[a]) < FirstWithKey(items, KeyOrder(items)[b])
    decreases |items|
  {
    if items != [] {
      var init := items[..|items| - 1];
      KeyOrderIsFirstSeen(init);
      forall k ensures FirstWithKey(items, k) == (if FirstWithKey(init, k) != -1 then FirstWithKey(init, k)
        else if Classify(items[|items| - 1]) == Keyed(k) then |items| - 1 else -1) {
      }
    }
  }

  /** The values of the `Map` after the loop. */
  function LatestByKey(items: seq<Json>): (m: map<string, Json>)
    decreases |items|
  {
    if items == [] then map[]
    else
      var m := LatestByKey(items[..|items| - 1]);
      match Classify(items[|items| - 1])
      case Keyed(k) => m[k := items[|items| - 1]]
      case _ => m
  }

  /** For every key of the items, the `Map` holds the last item with it. */
  lemma {:induction false} LatestIsLastSeen(items: seq<Json>)
    ensures forall k :: k in LatestByKey(items) <==> LastWithKey(items, k) != -1
    ensures forall k :: k in LatestByKey(items) ==> LatestByKey(items)[k] == items[LastWithKey(items, k)]
    decreases |items|
  {
    if items != [] {
      var init := items[..|items| - 1];
      LatestIsLastSeen(init);
      forall k ensures LastWithKey(items, k) == (if Classify(items[|items| - 1]) == Keyed(k) then |items| - 1
        else LastWithKey(init, k)) {
      }
      forall k | k in LatestByKey(items) ensures LatestByKey(items)[k] == items[LastWithKey(items, k)] {
        if LastWithKey(items, k) < |items| - 1 {
          assert items[LastWithKey(items, k)] == init[LastWithKey(init, k)];
        }
      }
    }
  }

  /** The `Map`'s key order and its entries hold the same keys. */
  lemma SameKeys(items: seq<Json>)
    ensures forall k :: k in KeyOrder(items) <==> k in LatestByKey(items)
  {
    KeyOrderIsFirstSeen(items);
    LatestIsLastSeen(items);
    forall k ensures k in KeyOrder(items) <==> k in LatestByKey(items) {
      assert FirstWithKey(items, k) == -1 <==> LastWithKey(items, k) == -1;
    }
  }

  /** One turn of the loop: `byKey.set(key, item)` appends a new key and overwrites an old one in place. */
  lemma LoopStep(items: seq<Json>, i: nat)
    requires i < |items|
    ensures var o, m := KeyOrder(items[..i]), LatestByKey(items[..i]);
      match Classify(items[i])
      case Keyed(k) =>
        KeyOrder(items[..i + 1]) == (if k in m then o else o + [k]) && LatestByKey(items[..i + 1]) == m[k := items[i]]
      case _ =>
        KeyOrder(items[..i + 1]) == o && LatestByKey(items[..i + 1]) == m
  {
    var s := items[..i + 1];
    assert s[..|s| - 1] == items[..i];
    assert s[|s| - 1] == items[i];
    SameKeys(items[..i]);
  }

  /**
   * `Array.from(byKey.values())`: the `Map`'s values in key order. Every
   * element is one of the items, unchanged, and there are no more of them
   * than items.
   */
  function Merged(items: seq<Json>): (r: seq<Json>)
    ensures |r| <= |items|
    ensures forall j :: 0 <= j < |r| ==> r[j] in items
  {
    var order, latest := KeyOrder(items), LatestByKey(items);
    MergedEntries(items);
    seq(|order|, j requires 0 <= j < |order| => latest[order[j]])
  }

  /** Each key in the `Map`'s order has an entry: the last item with that key. */
  lemma MergedEntries(items: seq<Json>)
    ensures forall j :: 0 <= j < |KeyOrder(items)| ==>
      var k := KeyOrder(items)[j];
      && k in LatestByKey(items)
      && 0 <= LastWithKey(items, k)
      && LatestByKey(items)[k] == items[LastWithKey(items, k)]
      && Classify(LatestByKey(items)[k]) == Keyed(k)
  {
    KeyOrderIsFirstSeen(items);
    LatestIsLastSeen(items);
    SameKeys(items);
  }

  /** The `j`-th merged element is the last item with the `j`-th key of the `Map`. */
  lemma MergedAt(items: seq<Json>, j: nat)
    requires j < |Merged(items)|
    ensures |Merged(items)| == |KeyOrder(items)|
    ensures Classify(Merged(items)[j]) == Keyed(KeyOrder(items)[j])
    ensures 0 <= LastWithKey(items, KeyOrder(items)[j])
    ensures Merged(items)[j] == items[LastWithKey(items, KeyOrder(items)[j])]
  {
    MergedEntries(items);
  }

  /** No two merged elements share a key, and every one of them has one. */
  lemma MergeKeysDistinct(items: seq<Json>)
    ensures forall j :: 0 <= j < |Merged(items)| ==> Classify(Merged(items)[j]).Keyed?
    ensures forall a, b :: 0 <= a < b < |Merged(items)| ==> Classify(Merged(items)[a]) != Classify(Merged(items)[b])
  {
    var r, o := Merged(items), KeyOrder(items);
    KeyOrderIsFirstSeen(items);
    forall j | 0 <= j < |r| ensures Classify(r[j]) == Keyed(o[j]) {
      MergedAt(items, j);
    }
  }

  /** Every key an item is kept under is the key of some merged element. */
  lemma MergeComplete(items: seq<Json>)
    ensures forall i :: 0 <= i < |items| && Classify(items[i]).Keyed? ==> Classify(items[i]) in KeysOf(Merged(items))
  {
    var r, o := Merged(items), KeyOrder(items);
    KeyOrderIsFirstSeen(items);
    forall i | 0 <= i < |items| && Classify(items[i]).Keyed? ensures Classify(items[i]) in KeysOf(r) {
      var k := Classify(items[i]).key;
      assert FirstWithKey(items, k) != -1;
      var j :| 0 <= j < |o| && o[j] == k;
      MergedAt(items, j);
      assert KeysOf(r)[j] == Keyed(k);
    }
  }

  /** Each merged element is the last item with its key: later items overwrite earlier ones. */
  lemma MergeLastWins(items: seq<Json>)
    ensures forall j :: 0 <= j < |Merged(items)| ==>
      && Classify(Merged(items)[j]).Keyed?
      && 0 <= LastWithKey(items, Classify(Merged(items)[j]).key)
      && Merged(items)[j] == items[LastWithKey(items, Classify(Merged(items)[j]).key)]
  {
    forall j | 0 <= j < |Merged(items)|
      ensures Classify(Merged(items)[j]).Keyed?
      ensures 0 <= LastWithKey(items, Classify(Merged(items)[j]).key)
      ensures Merged(items)[j] == items[LastWithKey(items, Classify(Merged(items)[j]).key)]
    {
      MergedAt(items, j);
    }
  }

  /** Merged elements stand in the order in which their keys first occur among the items. */
  lemma MergeFirstSeenOrder(items: seq<Json>)
    ensures forall j :: 0 <= j < |Merged(items)| ==> Classify(Merged(items)[j]).Keyed?
    ensures forall a, b :: 0 <= a < b < |Merged(items)| ==>
      FirstWithKey(items, Classify(Merged(items)[a]).key) < FirstWithKey(items, Classify(Merged(items)[b]).key)
  {
    var r, o := Merged(items), KeyOrder(items);
    KeyOrderIsFirstSeen(items);
    forall j | 0 <= j < |r| ensures Classify(r[j]) == Keyed(o[j]) {
      MergedAt(items, j);
    }
  }

  /** An item that is not kept (not an object, no kind, no host, or a blank one) is not in the result. */
  lemma MergeDropsUnkept(items: seq<Json>, i: nat)
    requires i < |items| && !Classify(items[i]).Keyed?
    ensures items[i] !in Merged(items)
  {
    MergeKeysDistinct(items);
  }

  /**
   * Keys ignore the case of the host and the white space around it: two
   * objects with the same truthy kind whose hosts agree once trimmed and
   * lower-cased become one merged element, the later one.
   */
  lemma MergeIgnoresHostCase(a: Json, b: Json)
    requires a.JObj? && b.JObj? && Truthy(Prop(a, "kind")) && Prop(a, "kind") == Prop(b, "kind")
    requires !TextThrows(Prop(a, "kind").value)
    requires Prop(a, "host").Some? && Prop(a, "host").value.JStr?
    requires Prop(b, "host").Some? && Prop(b, "host").value.JStr?
    requires Lower(Trim(Prop(a, "host").value.s)) == Lower(Trim(Prop(b, "host").value.s)) != ""
    ensures Merged([a, b]) == [b]
  {
    var k := Classify(b).key;
    assert Classify(a) == Classify(b) == Keyed(k);
    var items := [a, b];
    assert items[..1] == [a] && [a][..0] == [];
    assert KeyOrder([a]) == [k] && LatestByKey([a]) == map[k := a];
    assert KeyOrder(items) == [k];
    assert LatestByKey(items) == map[k := a][k := b];
  }

  /**
   * A kept-looking object whose kind cannot be written as text (an object,
   * or an array holding one, with its own `toString` key) makes the loop
   * throw, so `PUT` answers 500 and writes nothing.
   */
  lemma UnprintableKindAborts(items: seq<Json>, i: nat)
    requires i < |items| && items[i].JObj?
    requires Truthy(Prop(items[i], "kind")) && TextThrows(Prop(items[i], "kind").value)
    requires Prop(items[i], "host").Some? && Prop(items[i], "host").value.JStr?
    requires Lower(Trim(Prop(items[i], "host").value.s)) != ""
    ensures Aborts(items)
  {
    assert Classify(items[i]).Fails?;
  }

  /** `[{"kind": {"toString": 1}, "host": "h"}]` aborts the loop. */
  lemma UnprintableKindExample()
    ensures Aborts([JObj(map["kind" := JObj(map["toString" := JNum(1)]), "host" := JStr("h")])])
  {
    var item := JObj(map["kind" := JObj(map["toString" := JNum(1)]), "host" := JStr("h")]);
    assert Trim("h") == "h" by {
      assert TrimStart("h") == "h";
      assert TrimEnd("h") == "h";
    }
    assert Lower("h") == "h";
    UnprintableKindAborts([item], 0);
  }

  /** An RDP record for `H` followed by one for ` h` is stored once, as the second. */
  lemma MergeIgnoresHostCaseExample()
    ensures var first := JObj(map["kind" := JStr("rdp"), "host" := JStr("H")]);
      var second := JObj(map["kind" := JStr("rdp"), "host" := JStr(" h")]);
      Merged([first, second]) == [second]
  {
    var first := JObj(map["kind" := JStr("rdp"), "host" := JStr("H")]);
    var second := JObj(map["kind" := JStr("rdp"), "host" := JStr(" h")]);
    assert Trim("H") == "H" by {
      assert TrimStart("H") == "H";
      assert TrimEnd("H") == "H";
    }
    assert Trim(" h") == "h" by {
      assert TrimStart(" h") == TrimStart("h") == "h";
      assert TrimEnd("h") == "h";
    }
    assert Lower("H") == "h" == Lower("h");
    MergeIgnoresHostCase(first, second);
  }

  /** What each item of a list is keyed as. */
  function KeysOf(items: seq<Json>): (r: seq<Slot>)
    ensures |r| == |items|
  {
    seq(|items|, j requires 0 <= j < |items| => Classify(items[j]))
  }

  /** Every item is kept, each under a key of its own: what `Merged` returns. */
  predicate DistinctKeyed(s: seq<Json>) {
    && (forall j :: 0 <= j < |s| ==> Classify(s[j]).Keyed?)
    && (forall a, b :: 0 <= a < b < |s| ==> Classify(s[a]) != Classify(s[b]))
  }

  /** Leaving out the last item keeps the keys distinct. */
  lemma DistinctKeyedInit(s: seq<Json>)
    requires s != [] && DistinctKeyed(s)
    ensures DistinctKeyed(s[..|s| - 1])
  {
    var init := s[..|s| - 1];
    forall a, b | 0 <= a < b < |init| ensures Classify(init[a]) != Classify(init[b]) {
      assert init[a] == s[a] && init[b] == s[b];
    }
  }

  /** The key of the last of several distinct-keyed items is not among the keys before it. */
  lemma LastKeyIsNew(s: seq<Json>, before: seq<string>)
    requires s != [] && DistinctKeyed(s)
    requires |before| == |s| - 1
    requires forall j :: 0 <= j < |s| - 1 ==> before[j] == Classify(s[j]).key
    ensures Classify(s[|s| - 1]).key !in before
  {
    forall j | 0 <= j < |before| ensures before[j] != Classify(s[|s| - 1]).key {
      assert Classify(s[j]) != Classify(s[|s| - 1]);
    }
  }

  /** For items with distinct keys the `Map`'s keys are the items' keys in list order. */
  lemma {:induction false} OrderOfDistinct(s: seq<Json>)
    requires DistinctKeyed(s)
    ensures |KeyOrder(s)| == |s|
    ensures forall j :: 0 <= j < |s| ==> KeyOrder(s)[j] == Classify(s[j]).key
    decreases |s|
  {
    if s != [] {
      var init := s[..|s| - 1];
      DistinctKeyedInit(s);
      OrderOfDistinct(init);
      forall j | 0 <= j < |init| ensures KeyOrder(init)[j] == Classify(s[j]).key {
        assert init[j] == s[j];
      }
      OrderStep(s);
    }
  }

  /** The inductive step of `OrderOfDistinct`: the last item's key is appended. */
  lemma OrderStep(s: seq<Json>)
    requires s != [] && DistinctKeyed(s)
    requires |KeyOrder(s[..|s| - 1])| == |s| - 1
    requires forall j :: 0 <= j < |s| - 1 ==> KeyOrder(s[..|s| - 1])[j] == Classify(s[j]).key
    ensures |KeyOrder(s)| == |s|
    ensures forall j :: 0 <= j < |s| ==> KeyOrder(s)[j] == Classify(s[j]).key
  {
    var init, n := s[..|s| - 1], |s| - 1;
    var o := KeyOrder(init);
    var k := Classify(s[n]).key;
    LastKeyIsNew(s, o);
    assert Classify(s[n]) == Keyed(k);
    assert KeyOrder(s) == o + [k];
    forall j | 0 <= j < |s| ensures KeyOrder(s)[j] == Classify(s[j]).key {
      if j < n { assert KeyOrder(s)[j] == o[j]; }
    }
  }

  /** For items with distinct keys the `Map` holds every item under its own key. */
  lemma {:induction false} LatestOfDistinct(s: seq<Json>)
    requires DistinctKeyed(s)
    ensures forall j :: 0 <= j < |s| ==> Classify(s[j]).key in LatestByKey(s) && LatestByKey(s)[Classify(s[j]).key] == s[j]
    decreases |s|
  {
    if s != [] {
      var init, n := s[..|s| - 1], |s| - 1;
      DistinctKeyedInit(s);
      LatestOfDistinct(init);
      var m, k := LatestByKey(init), Classify(s[n]).key;
      assert LatestByKey(s) == m[k := s[n]];
      forall j | 0 <= j < |s|
        ensures Classify(s[j]).key in m[k := s[n]] && m[k := s[n]][Classify(s[j]).key] == s[j]
      {
        if j < n {
          assert init[j] == s[j];
          assert Classify(s[j]) != Classify(s[n]);
        }
      }
    }
  }

  /** Merging items that already have distinct keys changes nothing. */
  lemma MergedOfDistinct(s: seq<Json>)
    requires DistinctKeyed(s)
    ensures Merged(s) == s
  {
    OrderOfDistinct(s);
    LatestOfDistinct(s);
    var r := Merged(s);
    assert |r| == |s|;
    forall j | 0 <= j < |s| ensures r[j] == s[j] {
      assert KeyOrder(s)[j] == Classify(s[j]).key;
    }
  }

  /** Merging twice is merging once: what the file holds is already merged. */
  lemma MergeIdempotent(items: seq<Json>)
    ensures Merged(Merged(items)) == Merged(items)
  {
    MergeKeysDistinct(items);
    MergedOfDistinct(Merged(items));
  }

  /** The answer of `PUT`, with the list it writes when it succeeds. */
  datatype Response =
    | Saved(written: seq<Json>)   // 200 `{ ok: true }` after writing `written`
    | BadRequest                  // 400 "Body must be an array"
    | Failed                      // 500 "Failed to write data"

  /**
   * `PUT /api/servers`: `None` stands for a body that is not valid JSON.
   * Anything but an array is refused; otherwise the loop builds the `Map`,
   * and the merged list is what is written.
   */
  method Put(body: Option<Json>) returns (resp: Response)
    ensures body.None? ==> resp == Failed
    ensures body.Some? && !body.value.JArr? ==> resp == BadRequest
    ensures body.Some? && body.value.JArr? ==>
      resp == if Aborts(body.value.elems) then Failed else Saved(Merged(body.value.elems))
  {
    if body.None? {
      return Failed;
    }
    if !body.value.JArr? {
      return BadRequest;
    }
    var items := body.value.elems;
    var order: seq<string> := [];
    var byKey: map<string, Json> := map[];
    var i := 0;
    while i < |items|
      invariant 0 <= i <= |items|
      invariant order == KeyOrder(items[..i])
      invariant byKey == LatestByKey(items[..i])
      invariant forall j :: 0 <= j < i ==> !Classify(items[j]).Fails?
    {
      var item := items[i];
      LoopStep(items, i);
      var slot := Classify(item);
      match slot {
        case Fails =>
          assert Classify(items[i]).Fails?;
          assert Aborts(items);
          return Failed;
        case Skip =>
        case Keyed(key) =>
          if key !in byKey {
            order := order + [key];
          }
          byKey := byKey[key := item];
      }
      i := i + 1;
    }
    assert items[..i] == items;
    assert !Aborts(items);
    SameKeys(items);
    var merged := seq(|order|, j requires 0 <= j < |order| => byKey[order[j]]);
    return Saved(merged);
  }
}
