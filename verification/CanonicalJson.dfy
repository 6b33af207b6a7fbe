/**
 Canonical JSON: members of every object in ascending byte order of their keys,
 no spaces, strings escaped as in section 7 of RFC 8259.
 */
module CanonicalJson {

  type Byte = b: int | 0 <= b < 256
  type Text = seq<Byte>

  // A parsed document.  A number is the text it prints as; an object keeps its
  // members in some order.
  datatype Value =
    | Null
    | Bool(truth: bool)
    | Number(digits: Text)
    | String(text: Text)
    | Array(items: seq<Value>)
    | Object(keys: seq<Text>, values: seq<Value>)

  predicate NumberByte(b: Byte) { 48 <= b <= 57 || b == 43 || b == 45 || b == 46 || b == 69 || b == 101 }

  ghost predicate Distinct(keys: seq<Text>) {
    forall i, j | 0 <= i < j < |keys| :: keys[i] != keys[j]
  }

  ghost predicate WellFormed(v: Value) {
    match v
    case Number(digits) => digits != [] && forall b <- digits :: NumberByte(b)
    case Array(items) => forall x <- items :: WellFormed(x)
    case Object(keys, values) => |keys| == |values| && Distinct(keys) && forall x <- values :: WellFormed(x)
    case _ => true
  }

  /** What a document means: objects are maps. */

  datatype Json =
    | JNull
    | JBool(truth: bool)
    | JNumber(digits: Text)
    | JString(text: Text)
    | JArray(items: seq<Json>)
    | JObject(members: map<Text, Json>)

  ghost function Mean(v: Value): Json
    requires WellFormed(v)
    decreases v, 1
  {
    match v
    case Null => JNull
    case Bool(truth) => JBool(truth)
    case Number(digits) => JNumber(digits)
    case String(text) => JString(text)
    case Array(items) => JArray(seq(|items|, i requires 0 <= i < |items| => Mean(items[i])))
    case Object(keys, values) => JObject(MeanMembers(keys, values))
  }

  ghost function MeanMembers(keys: seq<Text>, values: seq<Value>): map<Text, Json>
    requires |keys| == |values| && Distinct(keys) && forall x <- values :: WellFormed(x)
    decreases values, 0
  {
    map k | k in keys :: Mean(values[Place(keys, k)])
  }

  /** Byte order of keys. */

  predicate Less(a: Text, b: Text) {
    if b == [] then false
    else if a == [] then true
    else a[0] < b[0] || (a[0] == b[0] && Less(a[1..], b[1..]))
  }

  lemma {:induction false} LessTotal(a: Text, b: Text)
    ensures a == b || Less(a, b) || Less(b, a)
    ensures !(Less(a, b) && Less(b, a)) && !Less(a, a)
  {
    if a != [] && b != [] {
      LessTotal(a[1..], b[1..]);
      LessTotal(a[1..], a[1..]);
      assert a == [a[0]] + a[1..] && b == [b[0]] + b[1..];
    } else if a != [] {
      LessTotal(a[1..], a[1..]);
    }
  }

  lemma {:induction false} LessTransitive(a: Text, b: Text, c: Text)
    requires Less(a, b) && Less(b, c)
    ensures Less(a, c)
  {
    if a != [] && a[0] == b[0] && b[0] == c[0] {
      LessTransitive(a[1..], b[1..], c[1..]);
    }
  }

  // The first difference decides: a lower byte, or the end of the text.
  ghost predicate Below(a: Text, b: Text, i: int) {
    0 <= i <= |a| && i < |b| && a[..i] == b[..i] && (i == |a| || a[i] < b[i])
  }

  lemma {:induction false} LessMeans(a: Text, b: Text)
    ensures Less(a, b) <==> exists i :: Below(a, b, i)
  {
    if a == [] || b == [] {
      assert b != [] ==> Below(a, b, 0);
    } else {
      LessMeans(a[1..], b[1..]);
      if i :| Below(a[1..], b[1..], i) && a[0] == b[0] {
        assert a[..i + 1] == [a[0]] + a[1..][..i] && b[..i + 1] == [b[0]] + b[1..][..i];
        assert Below(a, b, i + 1);
      }
      if a[0] < b[0] { assert Below(a, b, 0); }
      if i :| Below(a, b, i) && i > 0 {
        assert a[0] == a[..i][0] == b[..i][0] == b[0];
        assert a[1..][..i - 1] == a[..i][1..] && b[1..][..i - 1] == b[..i][1..];
        assert Below(a[1..], b[1..], i - 1);
      }
    }
  }

  ghost predicate Least(k: Text, keys: set<Text>) {
    k in keys && forall x <- keys :: x == k || Less(k, x)
  }

  lemma LeastExists(keys: set<Text>) returns (k: Text)
    requires keys != {}
    ensures Least(k, keys)
  {
    var first :| first in keys;
    k := first;
    if keys != {first} {
      var y := LeastExists(keys - {first});
      LessTotal(first, y);
      k := if Less(first, y) then first else y;
      forall x <- keys ensures x == k || Less(k, x) {
        if x != first && x != y && k == first {
          assert x in keys - {first};
          LessTransitive(first, y, x);
        }
      }
    }
  }

  lemma SomeLeast(keys: set<Text>)
    requires keys != {}
    ensures exists k :: Least(k, keys)
  {
    var k := LeastExists(keys);
  }

  // The keys in ascending order.
  ghost function Ascending(keys: set<Text>): (sorted: seq<Text>)
    ensures |sorted| == |keys| && forall k :: k in sorted <==> k in keys
    decreases |keys|
  {
    if keys == {} then [] else
      SomeLeast(keys);
      var k :| Least(k, keys);
      [k] + Ascending(keys - {k})
  }

  ghost predicate Rising(sorted: seq<Text>) {
    forall i, j | 0 <= i < j < |sorted| :: Less(sorted[i], sorted[j])
  }

  lemma {:induction false} AscendingRises(keys: set<Text>)
    ensures Rising(Ascending(keys))
    decreases |keys|
  {
    hide Less, Rising;
    if keys == {} {
      NoneRises();
    } else {
      SomeLeast(keys);
      var k :| Least(k, keys) && Ascending(keys) == [k] + Ascending(keys - {k});
      AscendingRises(keys - {k});
      forall x <- Ascending(keys - {k}) ensures Less(k, x) {
        assert x in keys - {k};
      }
      hide Ascending;
      RisingFrom(k, Ascending(keys - {k}));
    }
  }

  lemma NoneRises()
    ensures Rising(Ascending({}))
  {
  }

  lemma RisingFrom(k: Text, rest: seq<Text>)
    requires Rising(rest) && forall x <- rest :: Less(k, x)
    ensures Rising([k] + rest)
  {
    hide Less;
  }

  lemma OneLeast(a: Text, b: Text, keys: set<Text>)
    requires Least(a, keys) && Least(b, keys)
    ensures a == b
  {
    LessTotal(a, b);
  }

  /** Printing. */

  function Hex(n: int): Byte
    requires 0 <= n < 16
  {
    if n < 10 then 48 + n else 87 + n
  }

  // One byte of a string: the two-character escapes, the six-character escape
  // of other control characters, anything else as it is.
  function Escaped(b: Byte): Text {
    if b == 34 then [92, 34]
    else if b == 92 then [92, 92]
    else if b == 8 then [92, 98]
    else if b == 9 then [92, 116]
    else if b == 10 then [92, 110]
    else if b == 12 then [92, 102]
    else if b == 13 then [92, 114]
    else if b < 32 then [92, 117, 48, 48, Hex(b / 16), Hex(b % 16)]
    else [b]
  }

  function Escape(text: Text): Text {
    if text == [] then [] else Escaped(text[0]) + Escape(text[1..])
  }

  lemma {:induction false} EscapeGrows(text: Text)
    ensures |Escape(text)| >= |text|
  {
    if text != [] { EscapeGrows(text[1..]); }
  }

  function Quoted(text: Text): Text { [34] + Escape(text) + [34] }

  function Place(keys: seq<Text>, k: Text): (i: nat)
    requires k in keys
    ensures i < |keys| && keys[i] == k
  {
    if keys[0] == k then 0 else 1 + Place(keys[1..], k)
  }

  ghost function Write(v: Value): Text
    requires WellFormed(v)
    decreases v, 1
  {
    match v
    case Null => [110, 117, 108, 108]
    case Bool(truth) => if truth then [116, 114, 117, 101] else [102, 97, 108, 115, 101]
    case Number(digits) => digits
    case String(text) => Quoted(text)
    case Array(items) => [91] + WriteItems(items) + [93]
    case Object(keys, values) => [123] + WriteMembers(keys, values, Ascending(set k | k in keys)) + [125]
  }

  ghost function WriteItems(items: seq<Value>): Text
    requires forall x <- items :: WellFormed(x)
    decreases items, 0
  {
    if items == [] then [] else
      Write(items[0]) + (if |items| > 1 then [44] else []) + WriteItems(items[1..])
  }

  ghost function WriteMembers(keys: seq<Text>, values: seq<Value>, sorted: seq<Text>): Text
    requires |keys| == |values| && (forall x <- values :: WellFormed(x)) && forall k <- sorted :: k in keys
    decreases values, 0, |sorted|
  {
    if sorted == [] then [] else
      Quoted(sorted[0]) + [58] + Write(values[Place(keys, sorted[0])])
      + (if |sorted| > 1 then [44] else []) + WriteMembers(keys, values, sorted[1..])
  }

  /** Reading back: what is printed is self-delimiting. */

  lemma EscapedApart(a: Byte, b: Byte, x: Text, y: Text)
    requires Escaped(a) + x == Escaped(b) + y
    ensures a == b && x == y
  {
    assert (Escaped(a) + x)[0] == (Escaped(b) + y)[0];
    if |Escaped(a)| > 1 {
      assert (Escaped(a) + x)[1] == Escaped(a)[1];
      assert |Escaped(b)| > 1;
      assert (Escaped(b) + y)[1] == Escaped(b)[1];
      if |Escaped(a)| == 6 {
        assert (Escaped(a) + x)[4] == (Escaped(b) + y)[4] && (Escaped(a) + x)[5] == (Escaped(b) + y)[5];
      }
    }
    assert Escaped(a) == Escaped(b);
    assert (Escaped(a) + x)[|Escaped(a)|..] == x && (Escaped(b) + y)[|Escaped(b)|..] == y;
  }

  lemma EscapedHead(b: Byte)
    ensures Escaped(b) != [] && Escaped(b)[0] != 34
  {
  }

  // A closing quote is told from any escaped byte by its first byte.
  lemma QuoteHead(a: Text, x: Text)
    ensures |Escape(a) + [34] + x| > 0 && (a == [] <==> (Escape(a) + [34] + x)[0] == 34)
    ensures a == [] ==> Escape(a) + [34] + x == [34] + x
    ensures a != [] ==> Escape(a) + [34] + x == Escaped(a[0]) + (Escape(a[1..]) + [34] + x)
  {
    if a != [] {
      EscapedHead(a[0]);
      hide Escaped;
      var head, rest := Escaped(a[0]), Escape(a[1..]);
      assert (head + rest) + [34] + x == head + (rest + [34] + x);
    }
  }

  lemma Tail(b: Byte, x: Text, y: Text)
    requires [b] + x == [b] + y
    ensures x == y
  {
    assert ([b] + x)[1..] == x && ([b] + y)[1..] == y;
  }

  lemma {:induction false} QuoteSplit(a: Text, b: Text, x: Text, y: Text)
    requires Escape(a) + [34] + x == Escape(b) + [34] + y
    ensures a == b && x == y
  {
    hide Escaped;
    QuoteHead(a, x);
    QuoteHead(b, y);
    if a == [] {
      Tail(34, x, y);
    } else {
      EscapedApart(a[0], b[0], Escape(a[1..]) + [34] + x, Escape(b[1..]) + [34] + y);
      QuoteSplit(a[1..], b[1..], x, y);
      assert a == [a[0]] + a[1..] && b == [b[0]] + b[1..];
    }
  }

  // What may follow a value: nothing, a comma or a closing bracket.
  predicate Ends(x: Text) { x == [] || x[0] == 44 || x[0] == 93 || x[0] == 125 }

  lemma Overlap(a: Text, b: Text, x: Text, y: Text)
    requires a + x == b + y
    ensures |a| < |b| ==> x != [] && x[0] == b[|a|] && x[0] in b
    ensures |a| == |b| ==> a == b && x == y
  {
    if |a| < |b| {
      assert (a + x)[|a|] == (b + y)[|a|];
    } else if |a| == |b| {
      assert (a + x)[..|a|] == a && (b + y)[..|b|] == b;
      assert (a + x)[|a|..] == x && (b + y)[|b|..] == y;
    }
  }

  lemma NumberSplit(a: Text, b: Text, x: Text, y: Text)
    requires (forall c <- a :: NumberByte(c)) && (forall c <- b :: NumberByte(c)) && Ends(x) && Ends(y)
    requires a + x == b + y
    ensures a == b && x == y
  {
    Overlap(a, b, x, y);
    Overlap(b, a, y, x);
  }

  // The first byte tells the kind of value.
  function Kind(b: Byte): int {
    if b == 110 then 0 else if b == 116 then 1 else if b == 102 then 2 else if b == 34 then 4
    else if b == 91 then 5 else if b == 123 then 6 else 3
  }

  function KindOf(v: Value): int {
    match v
    case Null => 0
    case Bool(truth) => if truth then 1 else 2
    case Number(_) => 3
    case String(_) => 4
    case Array(_) => 5
    case Object(_, _) => 6
  }

  lemma WriteHead(v: Value)
    requires WellFormed(v)
    ensures Write(v) != [] && Kind(Write(v)[0]) == KindOf(v) && Write(v)[0] != 93
  {
    hide Escape, Ascending, Distinct, WriteMembers, WriteItems;
    match v
    case Number(digits) => assert digits[0] in digits;
    case Object(keys, values) => assert Write(v)[0] == 123;
    case _ =>
  }

  lemma WriteScalar(v: Value, x: Text)
    requires v.String? || v.Number?
    requires WellFormed(v)
    ensures v.String? ==> Write(v) + x == [34] + (Escape(v.text) + [34] + x)
    ensures v.Number? ==> Write(v) == v.digits && forall b <- v.digits :: NumberByte(b)
  {
    if v.String? {
      assert [34] + Escape(v.text) + [34] + x == [34] + (Escape(v.text) + [34] + x);
    }
  }

  lemma WriteArray(items: seq<Value>, x: Text)
    requires WellFormed(Array(items))
    ensures Write(Array(items)) + x == [91] + (WriteItems(items) + [93] + x)
  {
    hide WriteItems;
    var w := WriteItems(items);
    assert [91] + w + [93] + x == [91] + (w + [93] + x);
  }

  lemma WriteObject(keys: seq<Text>, values: seq<Value>, x: Text)
    requires WellFormed(Object(keys, values))
    ensures Write(Object(keys, values)) + x == [123] + (WriteMembers(keys, values, Ascending(set k | k in keys)) + [125] + x)
  {
    hide WriteMembers;
    var w := WriteMembers(keys, values, Ascending(set k | k in keys));
    assert [123] + w + [125] + x == [123] + (w + [125] + x);
  }

  lemma MeanArray(a: seq<Value>, b: seq<Value>)
    requires WellFormed(Array(a)) && WellFormed(Array(b))
    ensures Mean(Array(a)) == Mean(Array(b)) <==> |a| == |b| && forall i | 0 <= i < |a| :: Mean(a[i]) == Mean(b[i])
  {
    var ja, jb := Mean(Array(a)).items, Mean(Array(b)).items;
    assert |ja| == |a| && |jb| == |b|;
    assert forall i | 0 <= i < |a| :: ja[i] == Mean(a[i]);
    assert forall i | 0 <= i < |b| :: jb[i] == Mean(b[i]);
  }

  lemma ScalarSplit(a: Value, b: Value, x: Text, y: Text)
    requires WellFormed(a) && WellFormed(b) && Ends(x) && Ends(y) && KindOf(a) == KindOf(b) < 5
    requires Write(a) + x == Write(b) + y
    ensures Mean(a) == Mean(b) && x == y
  {
    hide Kind, Escape, Ascending, Distinct, WriteItems, WriteMembers;
    if a.Number? {
      WriteScalar(a, x);
      WriteScalar(b, y);
      NumberSplit(a.digits, b.digits, x, y);
    } else if a.String? {
      WriteScalar(a, x);
      WriteScalar(b, y);
      Tail(34, Escape(a.text) + [34] + x, Escape(b.text) + [34] + y);
      QuoteSplit(a.text, b.text, x, y);
    } else {
      Overlap(Write(a), Write(b), x, y);
    }
  }

  // A printed value can be read back, up to the order of members, without
  // knowing where it ends.
  lemma {:induction false} WriteSplit(a: Value, b: Value, x: Text, y: Text)
    requires WellFormed(a) && WellFormed(b) && Ends(x) && Ends(y)
    requires Write(a) + x == Write(b) + y
    ensures Mean(a) == Mean(b) && x == y
    decreases a, 1
  {
    hide Write, Kind, Escape, Ascending, Distinct, WriteItems, WriteMembers, Mean, Ends;
    WriteHead(a);
    WriteHead(b);
    assert (Write(a) + x)[0] == (Write(b) + y)[0];
    if a.Array? {
      WriteArray(a.items, x);
      WriteArray(b.items, y);
      Tail(91, WriteItems(a.items) + [93] + x, WriteItems(b.items) + [93] + y);
      ItemsSplit(a.items, b.items, x, y);
      MeanArray(a.items, b.items);
    } else if a.Object? {
      var ka, kb := Ascending(set k | k in a.keys), Ascending(set k | k in b.keys);
      WriteObject(a.keys, a.values, x);
      WriteObject(b.keys, b.values, y);
      Tail(123, WriteMembers(a.keys, a.values, ka) + [125] + x, WriteMembers(b.keys, b.values, kb) + [125] + y);
      MembersSplit(a.keys, a.values, ka, b.keys, b.values, kb, x, y);
      SameMembers(a.keys, a.values, b.keys, b.values, ka);
      MeanObject(a.keys, a.values);
      MeanObject(b.keys, b.values);
    } else {
      ScalarSplit(a, b, x, y);
    }
  }

  lemma MeanObject(keys: seq<Text>, values: seq<Value>)
    requires WellFormed(Object(keys, values))
    ensures Mean(Object(keys, values)) == JObject(MeanMembers(keys, values))
  {
  }

  lemma {:induction false} ItemsSplit(a: seq<Value>, b: seq<Value>, x: Text, y: Text)
    requires (forall v <- a :: WellFormed(v)) && forall v <- b :: WellFormed(v)
    requires WriteItems(a) + [93] + x == WriteItems(b) + [93] + y
    ensures |a| == |b| && (forall i | 0 <= i < |a| :: Mean(a[i]) == Mean(b[i])) && x == y
    decreases a, 0
  {
    hide Write, WriteItems, Mean;
    ItemsHead(a, x);
    ItemsHead(b, y);
    if a == [] {
      Tail(93, x, y);
    } else {
      WriteSplit(a[0], b[0], ItemsRest(a, x), ItemsRest(b, y));
      RestHead(a, x);
      RestHead(b, y);
      if |a| > 1 {
        Tail(44, WriteItems(a[1..]) + [93] + x, WriteItems(b[1..]) + [93] + y);
        ItemsSplit(a[1..], b[1..], x, y);
      } else {
        Tail(93, x, y);
      }
      forall i | 0 <= i < |a| ensures Mean(a[i]) == Mean(b[i]) {
        if i > 0 { assert a[i] == a[1..][i - 1] && b[i] == b[1..][i - 1]; }
      }
    }
  }

  // What follows the first item of an array.
  ghost function ItemsRest(a: seq<Value>, x: Text): Text
    requires a != [] && forall v <- a :: WellFormed(v)
  {
    if |a| > 1 then [44] + (WriteItems(a[1..]) + [93] + x) else [93] + x
  }

  lemma RestHead(a: seq<Value>, x: Text)
    requires a != [] && forall v <- a :: WellFormed(v)
    ensures ItemsRest(a, x)[0] == (if |a| > 1 then 44 else 93) && Ends(ItemsRest(a, x))
  {
  }

  lemma Associate(w: Text, comma: Text, rest: Text, close: Text, x: Text)
    ensures (w + comma + rest) + close + x == w + (comma + (rest + close + x))
  {
  }

  lemma UnfoldItems(a: seq<Value>)
    requires a != [] && forall v <- a :: WellFormed(v)
    ensures WriteItems(a) == Write(a[0]) + (if |a| > 1 then [44] else []) + WriteItems(a[1..])
    ensures |a| == 1 ==> WriteItems(a[1..]) == []
  {
    hide Write;
  }

  lemma ItemsHead(a: seq<Value>, x: Text)
    requires forall v <- a :: WellFormed(v)
    ensures a == [] <==> (WriteItems(a) + [93] + x)[0] == 93
    ensures a == [] ==> WriteItems(a) + [93] + x == [93] + x
    ensures a != [] ==> WriteItems(a) + [93] + x == Write(a[0]) + ItemsRest(a, x) && Ends(ItemsRest(a, x))
  {
    hide Write;
    if a != [] {
      UnfoldItems(a);
      hide WriteItems;
      WriteHead(a[0]);
      RestHead(a, x);
      Associate(Write(a[0]), if |a| > 1 then [44] else [], WriteItems(a[1..]), [93], x);
      if |a| == 1 { assert [] + ([] + [93] + x) == [93] + x; }
      assert (Write(a[0]) + ItemsRest(a, x))[0] == Write(a[0])[0];
    }
  }

  // What follows the first key of an object, and what follows its value.
  ghost function ValueRest(keys: seq<Text>, values: seq<Value>, sorted: seq<Text>, x: Text): Text
    requires |keys| == |values| && (forall v <- values :: WellFormed(v)) && (forall k <- sorted :: k in keys) && sorted != []
  {
    if |sorted| > 1 then [44] + (WriteMembers(keys, values, sorted[1..]) + [125] + x) else [125] + x
  }

  lemma UnfoldMembers(keys: seq<Text>, values: seq<Value>, sorted: seq<Text>)
    requires |keys| == |values| && (forall v <- values :: WellFormed(v)) && (forall k <- sorted :: k in keys) && sorted != []
    ensures WriteMembers(keys, values, sorted)
         == ([34] + Escape(sorted[0]) + [34]) + [58] + Write(values[Place(keys, sorted[0])])
            + (if |sorted| > 1 then [44] else []) + WriteMembers(keys, values, sorted[1..])
    ensures |sorted| == 1 ==> WriteMembers(keys, values, sorted[1..]) == []
  {
    hide Write, Escape;
  }

  lemma Regroup(e: Text, w: Text, comma: Text, rest: Text, x: Text)
    ensures ([34] + e + [34]) + [58] + w + comma + rest + [125] + x == [34] + (e + [34] + ([58] + (w + (comma + (rest + [125] + x)))))
  {
    var tail := comma + (rest + [125] + x);
    assert w + tail == w + comma + rest + [125] + x;
    assert [58] + (w + tail) == [58] + w + comma + rest + [125] + x;
    assert e + [34] + ([58] + (w + tail)) == e + [34] + [58] + w + comma + rest + [125] + x;
  }

  lemma ValueRestHead(keys: seq<Text>, values: seq<Value>, sorted: seq<Text>, x: Text)
    requires |keys| == |values| && (forall v <- values :: WellFormed(v)) && (forall k <- sorted :: k in keys) && sorted != []
    ensures Ends(ValueRest(keys, values, sorted, x)) && ValueRest(keys, values, sorted, x)[0] == if |sorted| > 1 then 44 else 125
  {
    hide WriteMembers;
  }

  lemma MembersHead(keys: seq<Text>, values: seq<Value>, sorted: seq<Text>, x: Text)
    requires |keys| == |values| && (forall v <- values :: WellFormed(v)) && forall k <- sorted :: k in keys
    ensures sorted == [] <==> (WriteMembers(keys, values, sorted) + [125] + x)[0] == 125
    ensures sorted == [] ==> WriteMembers(keys, values, sorted) + [125] + x == [125] + x
    ensures sorted != [] ==>
      && WriteMembers(keys, values, sorted) + [125] + x
         == [34] + (Escape(sorted[0]) + [34] + ([58] + (Write(values[Place(keys, sorted[0])]) + ValueRest(keys, values, sorted, x))))
      && Ends(ValueRest(keys, values, sorted, x)) && ValueRest(keys, values, sorted, x)[0] == if |sorted| > 1 then 44 else 125
  {
    hide Write, Escape, Place, ValueRest, Ends, WriteMembers;
    if sorted != [] {
      ValueRestHead(keys, values, sorted, x);
      UnfoldMembers(keys, values, sorted);
      var e, w, rest := Escape(sorted[0]), Write(values[Place(keys, sorted[0])]), WriteMembers(keys, values, sorted[1..]);
      Regroup(e, w, if |sorted| > 1 then [44] else [], rest, x);
      ValueRestIs(keys, values, sorted, x);
    } else {
      NoMembers(keys, values);
    }
  }

  lemma ValueRestIs(keys: seq<Text>, values: seq<Value>, sorted: seq<Text>, x: Text)
    requires |keys| == |values| && (forall v <- values :: WellFormed(v)) && (forall k <- sorted :: k in keys) && sorted != []
    ensures (if |sorted| > 1 then [44] else []) + (WriteMembers(keys, values, sorted[1..]) + [125] + x)
         == ValueRest(keys, values, sorted, x)
  {
    UnfoldMembers(keys, values, sorted);
    hide WriteMembers;
    if |sorted| == 1 { assert [] + ([] + [125] + x) == [125] + x; }
  }

  lemma {:induction false} MembersSplit(keysA: seq<Text>, valuesA: seq<Value>, a: seq<Text>,
                                        keysB: seq<Text>, valuesB: seq<Value>, b: seq<Text>, x: Text, y: Text)
    requires |keysA| == |valuesA| && (forall v <- valuesA :: WellFormed(v)) && forall k <- a :: k in keysA
    requires |keysB| == |valuesB| && (forall v <- valuesB :: WellFormed(v)) && forall k <- b :: k in keysB
    requires WriteMembers(keysA, valuesA, a) + [125] + x == WriteMembers(keysB, valuesB, b) + [125] + y
    ensures a == b && x == y
    ensures forall k <- a :: Mean(valuesA[Place(keysA, k)]) == Mean(valuesB[Place(keysB, k)])
    decreases valuesA, 0, |a|
  {
    hide Write, WriteMembers, Mean, Escape, Ends;
    MembersHead(keysA, valuesA, a, x);
    MembersHead(keysB, valuesB, b, y);
    if a == [] {
      Tail(125, x, y);
    } else {
      var va, vb := valuesA[Place(keysA, a[0])], valuesB[Place(keysB, b[0])];
      var ra, rb := ValueRest(keysA, valuesA, a, x), ValueRest(keysB, valuesB, b, y);
      Tail(34, Escape(a[0]) + [34] + ([58] + (Write(va) + ra)), Escape(b[0]) + [34] + ([58] + (Write(vb) + rb)));
      QuoteSplit(a[0], b[0], [58] + (Write(va) + ra), [58] + (Write(vb) + rb));
      Tail(58, Write(va) + ra, Write(vb) + rb);
      WriteSplit(va, vb, ra, rb);
      assert a == [a[0]] + a[1..] && b == [b[0]] + b[1..];
      if |a| > 1 {
        Tail(44, WriteMembers(keysA, valuesA, a[1..]) + [125] + x, WriteMembers(keysB, valuesB, b[1..]) + [125] + y);
        MembersSplit(keysA, valuesA, a[1..], keysB, valuesB, b[1..], x, y);
      } else {
        Tail(125, x, y);
      }
    }
  }

  lemma MeanMember(keys: seq<Text>, values: seq<Value>, k: Text)
    requires |keys| == |values| && Distinct(keys) && forall x <- values :: WellFormed(x)
    ensures k in MeanMembers(keys, values) <==> k in keys
    ensures k in keys ==> MeanMembers(keys, values)[k] == Mean(values[Place(keys, k)])
  {
    if k in keys {
      var i := Place(keys, k);
      assert keys[i] == k;
    }
  }

  lemma SameMembers(keysA: seq<Text>, valuesA: seq<Value>, keysB: seq<Text>, valuesB: seq<Value>, sorted: seq<Text>)
    requires |keysA| == |valuesA| && Distinct(keysA) && forall v <- valuesA :: WellFormed(v)
    requires |keysB| == |valuesB| && Distinct(keysB) && forall v <- valuesB :: WellFormed(v)
    requires (forall k :: k in sorted <==> k in keysA) && (forall k :: k in sorted <==> k in keysB)
    requires forall k <- sorted :: Mean(valuesA[Place(keysA, k)]) == Mean(valuesB[Place(keysB, k)])
    ensures MeanMembers(keysA, valuesA) == MeanMembers(keysB, valuesB)
  {
    var a, b := MeanMembers(keysA, valuesA), MeanMembers(keysB, valuesB);
    forall k ensures k in a <==> k in b {
      MeanMember(keysA, valuesA, k);
      MeanMember(keysB, valuesB, k);
    }
    forall k <- a ensures a[k] == b[k] {
      MeanMember(keysA, valuesA, k);
      MeanMember(keysB, valuesB, k);
      assert k in sorted;
    }
  }

  /** Equal meaning, equal bytes. */

  lemma {:induction false} MeanWrites(a: Value, b: Value)
    requires WellFormed(a) && WellFormed(b) && Mean(a) == Mean(b)
    ensures Write(a) == Write(b)
    decreases a, 1
  {
    hide WriteItems, WriteMembers, Ascending, Escape, MeanMembers, Distinct;
    if a.Array? {
      MeanArray(a.items, b.items);
      ItemsWrite(a.items, b.items);
    } else if a.Object? {
      SameKeys(a.keys, a.values, b.keys, b.values);
      MembersWrite(a.keys, a.values, b.keys, b.values, Ascending(set k | k in a.keys));
    }
  }

  lemma SameKeys(keysA: seq<Text>, valuesA: seq<Value>, keysB: seq<Text>, valuesB: seq<Value>)
    requires WellFormed(Object(keysA, valuesA)) && WellFormed(Object(keysB, valuesB))
    requires MeanMembers(keysA, valuesA) == MeanMembers(keysB, valuesB)
    ensures (set k | k in keysA) == set k | k in keysB
    ensures forall k <- keysA :: k in keysB && Mean(valuesA[Place(keysA, k)]) == Mean(valuesB[Place(keysB, k)])
  {
    hide MeanMembers, Mean, Place;
    forall k ensures k in keysA <==> k in keysB {
      MeanMember(keysA, valuesA, k);
      MeanMember(keysB, valuesB, k);
    }
    forall k <- keysA ensures k in keysB && Mean(valuesA[Place(keysA, k)]) == Mean(valuesB[Place(keysB, k)]) {
      MeanMember(keysA, valuesA, k);
      MeanMember(keysB, valuesB, k);
    }
  }

  lemma {:induction false} ItemsWrite(a: seq<Value>, b: seq<Value>)
    requires |a| == |b| && (forall v <- a :: WellFormed(v)) && forall v <- b :: WellFormed(v)
    requires forall i | 0 <= i < |a| :: Mean(a[i]) == Mean(b[i])
    ensures WriteItems(a) == WriteItems(b)
    decreases a, 0
  {
    if a != [] {
      MeanWrites(a[0], b[0]);
      ItemsWrite(a[1..], b[1..]);
    }
  }

  lemma {:induction false} MembersWrite(keysA: seq<Text>, valuesA: seq<Value>, keysB: seq<Text>, valuesB: seq<Value>, sorted: seq<Text>)
    requires |keysA| == |valuesA| && (forall v <- valuesA :: WellFormed(v)) && forall k <- sorted :: k in keysA
    requires |keysB| == |valuesB| && (forall v <- valuesB :: WellFormed(v)) && forall k <- sorted :: k in keysB
    requires forall k <- sorted :: Mean(valuesA[Place(keysA, k)]) == Mean(valuesB[Place(keysB, k)])
    ensures WriteMembers(keysA, valuesA, sorted) == WriteMembers(keysB, valuesB, sorted)
    decreases valuesA, 0, |sorted|
  {
    if sorted != [] {
      assert sorted[0] in sorted;
      MeanWrites(valuesA[Place(keysA, sorted[0])], valuesB[Place(keysB, sorted[0])]);
      MembersWrite(keysA, valuesA, keysB, valuesB, sorted[1..]);
    }
  }

  // Two documents print the same bytes exactly when they mean the same.
  lemma WriteExact(a: Value, b: Value)
    requires WellFormed(a) && WellFormed(b)
    ensures Write(a) == Write(b) <==> Mean(a) == Mean(b)
  {
    if Write(a) == Write(b) {
      WriteSplit(a, b, [], []);
    }
    if Mean(a) == Mean(b) {
      MeanWrites(a, b);
    }
  }

  /** Normalising a document: members in ascending order, all the way down. */

  ghost function Normal(v: Value): Value
    requires WellFormed(v)
  {
    match v
    case Array(items) => Array(seq(|items|, i requires 0 <= i < |items| => Normal(items[i])))
    case Object(keys, values) =>
      var sorted := Ascending(set k | k in keys);
      assert forall k <- sorted :: k in keys;
      Object(sorted, seq(|sorted|, i requires 0 <= i < |sorted| => assert sorted[i] in sorted; Normal(values[Place(keys, sorted[i])])))
    case _ => v
  }

  lemma {:induction false} AscendingDistinct(keys: set<Text>)
    ensures Distinct(Ascending(keys))
    decreases |keys|
  {
    if keys != {} {
      SomeLeast(keys);
      var k :| Least(k, keys) && Ascending(keys) == [k] + Ascending(keys - {k});
      AscendingDistinct(keys - {k});
      assert k !in Ascending(keys - {k});
    }
  }

  lemma NormalItem(items: seq<Value>, i: nat)
    requires WellFormed(Array(items)) && i < |items|
    ensures Normal(Array(items)).Array? && |Normal(Array(items)).items| == |items|
    ensures Normal(Array(items)).items[i] == Normal(items[i])
  {
  }

  lemma NormalMember(keys: seq<Text>, values: seq<Value>, i: nat)
    requires WellFormed(Object(keys, values)) && i < |Ascending(set k | k in keys)|
    ensures var n, sorted := Normal(Object(keys, values)), Ascending(set k | k in keys);
      && n.Object? && n.keys == sorted && |n.values| == |sorted|
      && sorted[i] in keys && n.values[i] == Normal(values[Place(keys, sorted[i])])
  {
    hide Ascending;
    assert Ascending(set k | k in keys)[i] in Ascending(set k | k in keys);
  }

  // A normal document means the same and so prints the same.
  lemma {:induction false} NormalMeans(v: Value)
    requires WellFormed(v)
    ensures WellFormed(Normal(v)) && Mean(Normal(v)) == Mean(v)
    decreases v
  {
    if v.Array? {
      NormalArray(v.items);
    } else if v.Object? {
      NormalObject(v.keys, v.values);
    }
  }

  lemma {:induction false} NormalArray(items: seq<Value>)
    requires WellFormed(Array(items))
    ensures WellFormed(Normal(Array(items))) && Mean(Normal(Array(items))) == Mean(Array(items))
    decreases items
  {
    hide Normal, Mean;
    var n := Normal(Array(items));
    assert n.Array? && |n.items| == |items| by { NormalShape(items); }
    forall i | 0 <= i < |items| ensures WellFormed(n.items[i]) && Mean(n.items[i]) == Mean(items[i]) {
      NormalItem(items, i);
      NormalMeans(items[i]);
    }
    MeanArray(n.items, items);
  }

  lemma NormalShape(items: seq<Value>)
    requires WellFormed(Array(items))
    ensures Normal(Array(items)).Array? && |Normal(Array(items)).items| == |items|
  {
  }

  lemma NormalKeys(keys: seq<Text>, values: seq<Value>)
    requires WellFormed(Object(keys, values))
    ensures var n, sorted := Normal(Object(keys, values)), Ascending(set k | k in keys);
      n.Object? && n.keys == sorted && |n.values| == |sorted| && Distinct(sorted)
  {
    AscendingDistinct(set k | k in keys);
  }

  lemma {:induction false} NormalObject(keys: seq<Text>, values: seq<Value>)
    requires WellFormed(Object(keys, values))
    ensures WellFormed(Normal(Object(keys, values))) && Mean(Normal(Object(keys, values))) == Mean(Object(keys, values))
    decreases values
  {
    hide Normal, Ascending, Mean, MeanMembers;
    var n, sorted := Normal(Object(keys, values)), Ascending(set k | k in keys);
    NormalKeys(keys, values);
    forall i | 0 <= i < |sorted|
      ensures sorted[i] in keys && WellFormed(n.values[i]) && Mean(n.values[i]) == Mean(values[Place(keys, sorted[i])])
    {
      NormalMember(keys, values, i);
      NormalMeans(values[Place(keys, sorted[i])]);
    }
    NormalMembers(keys, values, sorted, n.values);
    MeanObject(sorted, n.values);
    MeanObject(keys, values);
  }

  lemma NormalMembers(keys: seq<Text>, values: seq<Value>, sorted: seq<Text>, n: seq<Value>)
    requires WellFormed(Object(keys, values)) && |n| == |sorted| && Distinct(sorted)
    requires (forall k :: k in sorted <==> k in keys) && forall x <- n :: WellFormed(x)
    requires forall i | 0 <= i < |sorted| :: sorted[i] in keys && Mean(n[i]) == Mean(values[Place(keys, sorted[i])])
    ensures MeanMembers(sorted, n) == MeanMembers(keys, values)
  {
    hide Mean;
    forall k <- sorted ensures Mean(n[Place(sorted, k)]) == Mean(values[Place(keys, k)]) {
      var i := Place(sorted, k);
      assert sorted[i] == k;
    }
    SameMembers(sorted, n, keys, values, sorted);
  }

  lemma NormalWrites(v: Value)
    requires WellFormed(v)
    ensures WellFormed(Normal(v)) && Write(Normal(v)) == Write(v)
  {
    NormalMeans(v);
    MeanWrites(Normal(v), v);
  }

  /** The writer: one growing buffer. */

  lemma AscendingStep(keys: set<Text>, k: Text)
    requires Least(k, keys)
    ensures Ascending(keys) == [k] + Ascending(keys - {k})
  {
    SomeLeast(keys);
    var x :| Least(x, keys) && Ascending(keys) == [x] + Ascending(keys - {x});
    OneLeast(x, k, keys);
  }

  lemma AscendingNone()
    ensures Ascending({}) == []
  {
  }

  method SortKeys(keys: seq<Text>) returns (sorted: seq<Text>)
    ensures sorted == Ascending(set k | k in keys)
    ensures Rising(sorted) && forall k :: k in sorted <==> k in keys
  {
    hide Ascending, Less, Rising;
    AscendingRises(set k | k in keys);
    var rest := set k | k in keys;
    sorted := [];
    AscendingNone();
    while rest != {}
      invariant sorted + Ascending(rest) == Ascending(set k | k in keys)
      decreases rest
    {
      SomeLeast(rest);
      ghost var least :| Least(least, rest);
      var k :| k in rest && forall x <- rest :: x == k || Less(k, x);
      AscendingStep(rest, k);
      assert sorted + ([k] + Ascending(rest - {k})) == (sorted + [k]) + Ascending(rest - {k});
      sorted := sorted + [k];
      rest := rest - {k};
    }
  }

  lemma EscapeFrom(text: Text, i: nat)
    requires i <= |text|
    ensures Escape(text[i..]) == if i < |text| then Escaped(text[i]) + [] + Escape(text[i + 1..]) else []
  {
    if i < |text| {
      assert text[i..][0] == text[i] && text[i..][1..] == text[i + 1..];
      assert Escaped(text[i]) + [] == Escaped(text[i]);
    }
  }

  lemma ItemsFrom(items: seq<Value>, i: nat)
    requires i < |items| && forall x <- items :: WellFormed(x)
    ensures WriteItems(items[i..]) == Write(items[i]) + (if i + 1 < |items| then [44] else []) + WriteItems(items[i + 1..])
  {
    assert items[i..][1..] == items[i + 1..];
    UnfoldItems(items[i..]);
  }

  lemma MembersFrom(keys: seq<Text>, values: seq<Value>, sorted: seq<Text>, i: nat)
    requires |keys| == |values| && (forall v <- values :: WellFormed(v)) && (forall k <- sorted :: k in keys) && i < |sorted|
    ensures WriteMembers(keys, values, sorted[i..])
         == Quoted(sorted[i]) + [58] + Write(values[Place(keys, sorted[i])])
            + (if i + 1 < |sorted| then [44] else []) + WriteMembers(keys, values, sorted[i + 1..])
  {
    assert sorted[i..][1..] == sorted[i + 1..];
    assert sorted[i] in sorted;
    UnfoldMembers(keys, values, sorted[i..]);
  }

  class Output {
    var bytes: Text

    constructor ()
      ensures bytes == []
    {
      bytes := [];
    }

    method Extend(text: Text)
      modifies this
      ensures bytes == old(bytes) + text
    {
      bytes := bytes + text;
    }

    // serde_json's string writer, byte by byte.
    method WriteString(text: Text)
      modifies this
      ensures bytes == old(bytes) + Quoted(text)
    {
      hide Escaped, Escape;
      bytes := bytes + [34];
      assert text[0..] == text;
      for i := 0 to |text|
        invariant bytes + Escape(text[i..]) == old(bytes) + [34] + Escape(text)
      {
        EscapeFrom(text, i);
        Regrouped(bytes, [], Escaped(text[i]), [], Escape(text[i + 1..]));
        bytes := bytes + Escaped(text[i]);
      }
      EscapeFrom(text, |text|);
      bytes := bytes + [34];
      Bracketed(old(bytes), [34], Escape(text), [34]);
    }

    method WriteJson(v: Value)
      requires WellFormed(v)
      modifies this
      ensures bytes == old(bytes) + Write(v)
      decreases v, 1
    {
      hide WriteItems, WriteMembers, Ascending, Escape;
      match v {
        case Null => Extend([110, 117, 108, 108]);
        case Bool(truth) => Extend(if truth then [116, 114, 117, 101] else [102, 97, 108, 115, 101]);
        case Number(digits) => Extend(digits);
        case String(text) => WriteString(text);
        case Array(items) => WriteArrayItems(items);
        case Object(keys, values) => WriteObjectMembers(keys, values);
      }
    }

    method WriteArrayItems(items: seq<Value>)
      requires WellFormed(Array(items))
      modifies this
      ensures bytes == old(bytes) + ([91] + WriteItems(items) + [93])
      decreases items, 0
    {
      hide Write, WriteItems;
      Extend([91]);
      assert items[0..] == items;
      for i := 0 to |items|
        invariant bytes + (if 0 < i < |items| then [44] else []) + WriteItems(items[i..]) == old(bytes) + [91] + WriteItems(items)
      {
        if i != 0 {
          Extend([44]);
        }
        ItemsFrom(items, i);
        Regrouped(bytes, [], Write(items[i]), if i + 1 < |items| then [44] else [], WriteItems(items[i + 1..]));
        WriteJson(items[i]);
      }
      NoItems();
      assert items[|items|..] == [];
      Extend([93]);
      Bracketed(old(bytes), [91], WriteItems(items), [93]);
    }

    method WriteMember(key: Text, value: Value, ghost values: seq<Value>)
      requires WellFormed(value) && value in values
      modifies this
      ensures bytes == old(bytes) + (Quoted(key) + [58] + Write(value))
      decreases values, 0, 0
    {
      hide Write, Escape, Escaped;
      WriteString(key);
      Extend([58]);
      WriteJson(value);
      Bracketed(old(bytes), Quoted(key), [58], Write(value));
    }

    method WriteSorted(keys: seq<Text>, values: seq<Value>, sorted: seq<Text>)
      requires |keys| == |values| && (forall v <- values :: WellFormed(v)) && forall k <- sorted :: k in keys
      modifies this
      ensures bytes == old(bytes) + WriteMembers(keys, values, sorted)
      decreases values, 0, 1
    {
      hide WellFormed, Write, WriteMembers, Escape, Escaped, Quoted;
      assert sorted[0..] == sorted;
      for i := 0 to |sorted|
        invariant bytes + (if 0 < i < |sorted| then [44] else []) + WriteMembers(keys, values, sorted[i..])
               == old(bytes) + WriteMembers(keys, values, sorted)
      {
        if i != 0 {
          Extend([44]);
        }
        assert sorted[i] in sorted;
        var value := values[Place(keys, sorted[i])];
        MembersFrom(keys, values, sorted, i);
        Regrouped(bytes, [], Quoted(sorted[i]) + [58] + Write(value), if i + 1 < |sorted| then [44] else [],
                  WriteMembers(keys, values, sorted[i + 1..]));
        WriteMember(sorted[i], value, values);
      }
      NoMembers(keys, values);
      assert sorted[|sorted|..] == [];
    }

    method WriteObjectMembers(keys: seq<Text>, values: seq<Value>)
      requires WellFormed(Object(keys, values))
      modifies this
      ensures bytes == old(bytes) + ([123] + WriteMembers(keys, values, Ascending(set k | k in keys)) + [125])
      decreases values, 0, 2
    {
      hide WriteMembers;
      Extend([123]);
      var sorted := SortKeys(keys);
      WriteSorted(keys, values, sorted);
      Extend([125]);
      Bracketed(old(bytes), [123], WriteMembers(keys, values, sorted), [125]);
    }
  }

  lemma Bracketed(before: Text, open: Text, w: Text, close: Text)
    ensures before + open + w + close == before + (open + w + close)
  {
  }

  lemma NoItems()
    ensures WriteItems([]) == []
  {
  }

  lemma NoMembers(keys: seq<Text>, values: seq<Value>)
    requires |keys| == |values| && forall v <- values :: WellFormed(v)
    ensures WriteMembers(keys, values, []) == []
  {
  }

  lemma Regrouped(before: Text, head: Text, w: Text, comma: Text, rest: Text)
    ensures before + (head + w + comma + rest) == (before + head + w) + comma + rest
    ensures before + (w + comma + rest) == (before + w) + comma + rest
  {
  }
}
