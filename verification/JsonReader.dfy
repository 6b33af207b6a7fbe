/**
 A reader of JSON by the grammar of RFC 8259, and what it makes of printed
 documents.
 */
module JsonReader {
  import opened Wrappers
  import opened CanonicalJson
  import opened CanonicalPages

  /** Strings: section 7. */

  // The two-character escapes.
  function Short(b: Byte): Option<Byte> {
    match b
    case 34 => Some(34)   // "
    case 92 => Some(92)   // \
    case 47 => Some(47)   // /
    case 98 => Some(8)    // b
    case 102 => Some(12)  // f
    case 110 => Some(10)  // n
    case 114 => Some(13)  // r
    case 116 => Some(9)   // t
    case _ => None
  }

  function HexValue(b: Byte): Option<nat> {
    if 48 <= b <= 57 then Some(b - 48) else if 97 <= b <= 102 then Some(b - 87) else if 65 <= b <= 70 then Some(b - 55) else None
  }

  // After \u: a code point that UTF-8 writes in one byte.
  function CodePoint(t: Text): Option<Byte>
    requires |t| == 4
  {
    if HexValue(t[0]) == Some(0) && HexValue(t[1]) == Some(0) && HexValue(t[2]).Some? && HexValue(t[3]).Some? && HexValue(t[2]).value < 8
    then Some(16 * HexValue(t[2]).value + HexValue(t[3]).value) else None
  }

  function Prepend(b: Byte, r: Option<(Text, Text)>): Option<(Text, Text)> {
    if r.Some? then Some(([b] + r.value.0, r.value.1)) else None
  }

  // After the opening quote: the text, and what follows the closing one.
  function ReadString(t: Text): (r: Option<(Text, Text)>)
    ensures r.Some? ==> |r.value.1| < |t|
  {
    if t == [] || t[0] < 32 then None
    else if t[0] == 34 then Some(([], t[1..]))
    else if t[0] != 92 then Prepend(t[0], ReadString(t[1..]))
    else if |t| < 2 then None
    else if t[1] != 117 then (if Short(t[1]).Some? then Prepend(Short(t[1]).value, ReadString(t[2..])) else None)
    else if |t| < 6 || CodePoint(t[2..6]).None? then None
    else Prepend(CodePoint(t[2..6]).value, ReadString(t[6..]))
  }

  /** Values. */

  predicate Starts(t: Text, word: Text) { |t| >= |word| && t[..|word|] == word }

  function NumberLength(t: Text): (n: nat)
    ensures n <= |t|
  {
    if t == [] || !NumberByte(t[0]) then 0 else 1 + NumberLength(t[1..])
  }

  function Read(t: Text): (r: Option<(Json, Text)>)
    ensures r.Some? ==> |r.value.1| < |t|
    decreases |t|, 0
  {
    if t == [] then None
    else if Starts(t, [110, 117, 108, 108]) then Some((JNull, t[4..]))
    else if Starts(t, [116, 114, 117, 101]) then Some((JBool(true), t[4..]))
    else if Starts(t, [102, 97, 108, 115, 101]) then Some((JBool(false), t[5..]))
    else if t[0] == 34 then
      var s := ReadString(t[1..]);
      if s.Some? then Some((JString(s.value.0), s.value.1)) else None
    else if t[0] == 91 then
      if |t| > 1 && t[1] == 93 then Some((JArray([]), t[2..])) else
        var items := ReadItems(t[1..]);
        if items.Some? then Some((JArray(items.value.0), items.value.1)) else None
    else if t[0] == 123 then
      if |t| > 1 && t[1] == 125 then Some((JObject(map[]), t[2..])) else
        var members := ReadMembers(t[1..]);
        if members.Some? then Some((JObject(members.value.0), members.value.1)) else None
    else if NumberLength(t) > 0 then Some((JNumber(t[..NumberLength(t)]), t[NumberLength(t)..]))
    else None
  }

  // One item and those after it, with the closing bracket.
  function ReadItems(t: Text): (r: Option<(seq<Json>, Text)>)
    ensures r.Some? ==> |r.value.1| < |t|
    decreases |t|, 1
  {
    match Read(t)
    case None => None
    case Some((first, rest)) =>
      if rest != [] && rest[0] == 93 then Some(([first], rest[1..]))
      else if rest != [] && rest[0] == 44 then
        var more := ReadItems(rest[1..]);
        if more.Some? then Some(([first] + more.value.0, more.value.1)) else None
      else None
  }

  // One member and those after it, with the closing brace.
  function ReadMembers(t: Text): (r: Option<(map<Text, Json>, Text)>)
    ensures r.Some? ==> |r.value.1| < |t|
    decreases |t|, 1
  {
    if t == [] || t[0] != 34 then None else
      var key := ReadString(t[1..]);
      if key.None? || key.value.1 == [] || key.value.1[0] != 58 then None else
        match Read(key.value.1[1..])
        case None => None
        case Some((value, rest)) =>
          if rest != [] && rest[0] == 125 then Some((map[key.value.0 := value], rest[1..]))
          else if rest != [] && rest[0] == 44 then
            var more := ReadMembers(rest[1..]);
            if more.Some? then Some((more.value.0[key.value.0 := value], more.value.1)) else None
          else None
  }

  /** Strings read back. */

  // Which bytes are escaped how: the seven with a short form, other control
  // characters by their number in lower-case hexadecimal, and nothing else.
  lemma EscapeForms(b: Byte)
    ensures |Escaped(b)| == 2 <==> b in [8, 9, 10, 12, 13, 34, 92]
    ensures |Escaped(b)| == 6 <==> b < 32 && b !in [8, 9, 10, 12, 13]
    ensures |Escaped(b)| == 1 ==> Escaped(b) == [b]
    ensures |Escaped(b)| in {1, 2, 6} && forall x <- Escaped(b) :: x >= 32 && !(65 <= x <= 70 && |Escaped(b)| == 6)
  {
  }

  lemma ByteReads(b: Byte, y: Text)
    ensures ReadString(Escaped(b) + y) == Prepend(b, ReadString(y))
  {
    var t := Escaped(b) + y;
    assert forall i | 0 <= i < |Escaped(b)| :: t[i] == Escaped(b)[i];
    assert t[|Escaped(b)|..] == y;
    if |Escaped(b)| == 6 {
      assert t[2..6] == Escaped(b)[2..6];
      HexReads(b / 16);
      HexReads(b % 16);
    }
  }

  lemma HexReads(n: nat)
    requires n < 16
    ensures HexValue(Hex(n)) == Some(n)
  {
  }

  // A printed string reads back as the text, and nothing after it is touched.
  lemma {:induction false} StringReads(a: Text, x: Text)
    ensures ReadString(Escape(a) + [34] + x) == Some((a, x))
  {
    hide Escaped;
    QuoteHead(a, x);
    if a == [] {
      assert ([34] + x)[1..] == x;
    } else {
      ByteReads(a[0], Escape(a[1..]) + [34] + x);
      StringReads(a[1..], x);
      assert [a[0]] + a[1..] == a;
    }
  }

  // No byte below 32 is left in a printed string.
  lemma {:induction false} EscapePlain(a: Text)
    ensures forall x <- Escape(a) :: x >= 32
  {
    if a != [] {
      EscapeForms(a[0]);
      EscapePlain(a[1..]);
      hide Escaped;
    }
  }

  /** Values read back. */

  // The printer of a value with anything that may follow it.
  ghost predicate ReadsAs(w: Text, j: Json, y: Text) { Read(w + y) == Some((j, y)) }

  lemma WordReads(w: Text, y: Text)
    requires w in [[110, 117, 108, 108], [116, 114, 117, 101], [102, 97, 108, 115, 101]]
    ensures ReadsAs(w, if w == [110, 117, 108, 108] then JNull else JBool(w == [116, 114, 117, 101]), y)
  {
    assert (w + y)[..|w|] == w && (w + y)[|w|..] == y;
    assert (w + y)[0] == w[0];
  }

  lemma {:induction false} NumberEnds(digits: Text, y: Text)
    requires (forall b <- digits :: NumberByte(b)) && Ends(y)
    ensures NumberLength(digits + y) == |digits|
  {
    if digits == [] {
      assert digits + y == y;
    } else {
      assert (digits + y)[1..] == digits[1..] + y && (digits + y)[0] == digits[0] && digits[0] in digits;
      NumberEnds(digits[1..], y);
    }
  }

  lemma NumberReads(digits: Text, y: Text)
    requires digits != [] && (forall b <- digits :: NumberByte(b)) && Ends(y)
    ensures ReadsAs(digits, JNumber(digits), y)
  {
    NumberEnds(digits, y);
    assert (digits + y)[0] == digits[0] && digits[0] in digits;
    assert (digits + y)[..|digits|] == digits && (digits + y)[|digits|..] == y;
  }

  lemma QuotedReads(text: Text, y: Text)
    ensures ReadsAs(Quoted(text), JString(text), y)
  {
    StringReads(text, y);
    var t := Quoted(text) + y;
    assert t == [34] + (Escape(text) + [34] + y);
    assert t[0] == 34 && t[1..] == Escape(text) + [34] + y;
  }

  // One item, printed as `w`, and what is read of the rest.
  lemma ItemReads(w: Text, j: Json, rest: Text)
    requires rest != [] && ReadsAs(w, j, rest)
    ensures rest[0] == 93 ==> ReadItems(w + rest) == Some(([j], rest[1..]))
    ensures rest[0] == 44 && ReadItems(rest[1..]).Some? ==>
      ReadItems(w + rest) == Some(([j] + ReadItems(rest[1..]).value.0, ReadItems(rest[1..]).value.1))
  {
    hide Read;
  }

  lemma MemberReads(k: Text, w: Text, j: Json, rest: Text)
    requires rest != [] && ReadsAs(w, j, rest)
    ensures var t := [34] + (Escape(k) + [34] + ([58] + (w + rest)));
      && (rest[0] == 125 ==> ReadMembers(t) == Some((map[k := j], rest[1..])))
      && (rest[0] == 44 && ReadMembers(rest[1..]).Some? ==>
            ReadMembers(t) == Some((ReadMembers(rest[1..]).value.0[k := j], ReadMembers(rest[1..]).value.1)))
  {
    hide Read, Escape;
    var t := [34] + (Escape(k) + [34] + ([58] + (w + rest)));
    StringReads(k, [58] + (w + rest));
    assert t[0] == 34 && t[1..] == Escape(k) + [34] + ([58] + (w + rest));
    assert ([58] + (w + rest))[0] == 58 && ([58] + (w + rest))[1..] == w + rest;
  }

  lemma ArrayReads(body: Text, y: Text)
    ensures body == [] ==> ReadsAs([91] + body + [93], JArray([]), y)
    ensures body != [] && body[0] != 93 && ReadItems(body + [93] + y).Some? && ReadItems(body + [93] + y).value.1 == y ==>
      ReadsAs([91] + body + [93], JArray(ReadItems(body + [93] + y).value.0), y)
  {
    hide ReadItems, ReadMembers, ReadString, NumberLength;
    var t := [91] + body + [93] + y;
    assert t == [91] + (body + [93] + y);
    assert t[0] == 91 && t[1..] == body + [93] + y;
    if body == [] { assert t[1] == 93 && t[2..] == y; } else { assert t[1] == body[0]; }
  }

  lemma ObjectReads(body: Text, y: Text)
    ensures body == [] ==> ReadsAs([123] + body + [125], JObject(map[]), y)
    ensures body != [] && body[0] != 125 && ReadMembers(body + [125] + y).Some? && ReadMembers(body + [125] + y).value.1 == y ==>
      ReadsAs([123] + body + [125], JObject(ReadMembers(body + [125] + y).value.0), y)
  {
    hide ReadItems, ReadMembers, ReadString, NumberLength;
    var t := [123] + body + [125] + y;
    assert t == [123] + (body + [125] + y);
    assert t[0] == 123 && t[1..] == body + [125] + y;
    if body == [] { assert t[1] == 125 && t[2..] == y; } else { assert t[1] == body[0]; }
  }

  ghost function Means(items: seq<Value>): (r: seq<Json>)
    requires forall x <- items :: WellFormed(x)
    ensures |r| == |items|
  {
    seq(|items|, i requires 0 <= i < |items| => Mean(items[i]))
  }

  lemma MeansFirst(items: seq<Value>)
    requires items != [] && forall x <- items :: WellFormed(x)
    ensures Means(items) == [Mean(items[0])] + Means(items[1..])
  {
    hide Mean;
  }

  // What the members of the given keys mean.
  ghost function MeansOf(keys: seq<Text>, values: seq<Value>, sorted: seq<Text>): map<Text, Json>
    requires |keys| == |values| && (forall x <- values :: WellFormed(x)) && forall k <- sorted :: k in keys
  {
    map k | k in sorted :: Mean(values[Place(keys, k)])
  }

  /** The canonical form. */

  // A document in canonical form reads back as what it means, and what follows
  // it is left alone.
  lemma {:induction false} CanonicalReads(v: Value, y: Text)
    requires WellFormed(v) && Ends(y)
    ensures Read(Write(v) + y) == Some((Mean(v), y))
    decreases v, 1
  {
    hide Read, Escape, Ascending, WriteItems, WriteMembers, Ends, MeanMembers;
    assert ReadsAs(Write(v), Mean(v), y) by {
      match v
      case Null => WordReads(Write(v), y);
      case Bool(_) => WordReads(Write(v), y);
      case Number(digits) => NumberReads(digits, y);
      case String(text) => QuotedReads(text, y);
      case Array(items) => CanonicalArray(items, y);
      case Object(keys, values) => CanonicalObject(keys, values, y);
    }
  }

  lemma {:induction false} CanonicalArray(items: seq<Value>, y: Text)
    requires WellFormed(Array(items)) && Ends(y)
    ensures ReadsAs(Write(Array(items)), Mean(Array(items)), y)
    decreases items, 1
  {
    hide Read, ReadItems, Ends;
    ArrayReads(WriteItems(items), y);
    assert Mean(Array(items)) == JArray(Means(items));
    if items != [] {
      ItemsHead(items, y);
      CanonicalItems(items, y);
      NotEmpty(WriteItems(items), [93] + y);
    }
    assert Write(Array(items)) == [91] + WriteItems(items) + [93];
  }

  lemma NotEmpty(w: Text, rest: Text)
    requires rest != []
    ensures w + [rest[0]] + rest[1..] == w + rest && (w == [] ==> (w + rest)[0] == rest[0]) && (w != [] ==> (w + rest)[0] == w[0])
  {
  }

  lemma {:induction false} CanonicalItems(a: seq<Value>, y: Text)
    requires a != [] && (forall x <- a :: WellFormed(x)) && Ends(y)
    ensures ReadItems(WriteItems(a) + [93] + y) == Some((Means(a), y))
    decreases a, 0
  {
    hide Read, ReadItems, Write, WriteItems, Mean, Means, Ends;
    ItemsHead(a, y);
    RestHead(a, y);
    CanonicalReads(a[0], ItemsRest(a, y));
    ItemReads(Write(a[0]), Mean(a[0]), ItemsRest(a, y));
    MeansFirst(a);
    if |a| > 1 {
      assert ItemsRest(a, y)[1..] == WriteItems(a[1..]) + [93] + y;
      CanonicalItems(a[1..], y);
    } else {
      assert ItemsRest(a, y)[1..] == y;
      NoMeans(a[1..]);
    }
  }

  lemma NoMeans(a: seq<Value>)
    requires a == []
    ensures Means(a) == [] && forall j: Json :: [j] + Means(a) == [j]
  {
  }

  lemma {:induction false} CanonicalObject(keys: seq<Text>, values: seq<Value>, y: Text)
    requires WellFormed(Object(keys, values)) && Ends(y)
    ensures ReadsAs(Write(Object(keys, values)), Mean(Object(keys, values)), y)
    decreases values, 1
  {
    hide Read, ReadMembers, Ends, MeanMembers, Escape, Ascending, WriteMembers;
    var sorted := Ascending(set k | k in keys);
    var w := WriteMembers(keys, values, sorted);
    ObjectReads(w, y);
    MeanObject(keys, values);
    AllMembers(keys, values, sorted);
    if sorted != [] {
      MembersHead(keys, values, sorted, y);
      CanonicalMembers(keys, values, sorted, y);
      NotEmpty(w, [125] + y);
    } else {
      NoMembers(keys, values);
    }
    assert Write(Object(keys, values)) == [123] + w + [125];
  }

  lemma AllMembers(keys: seq<Text>, values: seq<Value>, sorted: seq<Text>)
    requires WellFormed(Object(keys, values)) && forall k :: k in sorted <==> k in keys
    ensures MeanMembers(keys, values) == MeansOf(keys, values, sorted)
  {
    hide MeanMembers, Mean, Place;
    forall k ensures k in MeanMembers(keys, values) <==> k in MeansOf(keys, values, sorted) {
      MeanMember(keys, values, k);
    }
    forall k <- MeanMembers(keys, values) ensures MeanMembers(keys, values)[k] == MeansOf(keys, values, sorted)[k] {
      MeanMember(keys, values, k);
    }
  }

  lemma {:induction false} CanonicalMembers(keys: seq<Text>, values: seq<Value>, sorted: seq<Text>, y: Text)
    requires |keys| == |values| && (forall v <- values :: WellFormed(v)) && (forall k <- sorted :: k in keys) && Ends(y) && sorted != []
    ensures ReadMembers(WriteMembers(keys, values, sorted) + [125] + y) == Some((MeansOf(keys, values, sorted), y))
    decreases values, 0, |sorted|
  {
    hide Read, ReadMembers, Write, WriteMembers, Mean, MeansOf, Escape, Ends;
    MembersHead(keys, values, sorted, y);
    var value, rest := values[Place(keys, sorted[0])], ValueRest(keys, values, sorted, y);
    CanonicalReads(value, rest);
    MemberReads(sorted[0], Write(value), Mean(value), rest);
    MeansOfFirst(keys, values, sorted);
    if |sorted| > 1 {
      assert rest[1..] == WriteMembers(keys, values, sorted[1..]) + [125] + y;
      CanonicalMembers(keys, values, sorted[1..], y);
    } else {
      assert rest[1..] == y;
    }
  }

  lemma MeansOfFirst(keys: seq<Text>, values: seq<Value>, sorted: seq<Text>)
    requires |keys| == |values| && (forall v <- values :: WellFormed(v)) && (forall k <- sorted :: k in keys) && sorted != []
    ensures MeansOf(keys, values, sorted) == MeansOf(keys, values, sorted[1..])[sorted[0] := Mean(values[Place(keys, sorted[0])])]
    ensures |sorted| == 1 ==> MeansOf(keys, values, sorted) == map[sorted[0] := Mean(values[Place(keys, sorted[0])])]
  {
    hide Mean, Place;
    assert forall k :: k in sorted <==> k == sorted[0] || k in sorted[1..];
  }

  /** The compact form, members in the order they have. */

  lemma {:induction false} CompactReads(v: Value, y: Text)
    requires WellFormed(v) && Ends(y)
    ensures Read(Compact(v) + y) == Some((Mean(v), y))
    decreases v, 1
  {
    hide Read, Escape, CompactItems, CompactMembers, Ends, MeanMembers;
    assert ReadsAs(Compact(v), Mean(v), y) by {
      match v
      case Null => WordReads(Compact(v), y);
      case Bool(_) => WordReads(Compact(v), y);
      case Number(digits) => NumberReads(digits, y);
      case String(text) => QuotedReads(text, y);
      case Array(items) => CompactArray(items, y);
      case Object(keys, values) => CompactObject(keys, values, y);
    }
  }

  lemma CompactHead(v: Value)
    requires WellFormed(v)
    ensures Compact(v) != [] && Compact(v)[0] != 93
  {
    hide Escape, CompactItems, CompactMembers;
    match v
    case Number(digits) => assert digits[0] in digits;
    case _ =>
  }

  // What follows the first of several, or the last.
  function Following(more: bool, w: Text, close: Byte, y: Text): Text {
    if more then [44] + (w + [close] + y) else [close] + y
  }

  lemma CompactItemsHead(a: seq<Value>, y: Text)
    requires a != [] && forall x <- a :: WellFormed(x)
    ensures CompactItems(a) + [93] + y == Compact(a[0]) + Following(|a| > 1, CompactItems(a[1..]), 93, y)
    ensures CompactItems(a) != [] && CompactItems(a)[0] != 93
  {
    CompactHead(a[0]);
    hide Compact;
    var w := CompactItems(a[1..]);
    Associate(Compact(a[0]), if |a| > 1 then [44] else [], w, [93], y);
    if |a| == 1 { assert w == [] && [] + ([] + [93] + y) == [93] + y; }
  }

  lemma {:induction false} CompactArray(items: seq<Value>, y: Text)
    requires WellFormed(Array(items)) && Ends(y)
    ensures ReadsAs(Compact(Array(items)), Mean(Array(items)), y)
    decreases items, 1
  {
    hide Read, ReadItems, Ends;
    ArrayReads(CompactItems(items), y);
    assert Mean(Array(items)) == JArray(Means(items));
    if items != [] {
      CompactItemsHead(items, y);
      CompactItemsRead(items, y);
    }
    assert Compact(Array(items)) == [91] + CompactItems(items) + [93];
  }

  lemma FollowingEnds(more: bool, w: Text, close: Byte, y: Text)
    requires close == 93 || close == 125
    ensures Following(more, w, close, y) != []
    ensures Ends(Following(more, w, close, y)) && Following(more, w, close, y)[0] == if more then 44 else close
    ensures Following(more, w, close, y)[1..] == if more then w + [close] + y else y
  {
  }

  lemma {:induction false} CompactItemsRead(a: seq<Value>, y: Text)
    requires a != [] && (forall x <- a :: WellFormed(x)) && Ends(y)
    ensures ReadItems(CompactItems(a) + [93] + y) == Some((Means(a), y))
    decreases a, 0
  {
    hide Read, ReadItems, Compact, CompactItems, Mean, Means, Ends, Following;
    var rest := Following(|a| > 1, CompactItems(a[1..]), 93, y);
    CompactItemsHead(a, y);
    FollowingEnds(|a| > 1, CompactItems(a[1..]), 93, y);
    CompactReads(a[0], rest);
    ItemReads(Compact(a[0]), Mean(a[0]), rest);
    MeansFirst(a);
    if |a| > 1 {
      CompactItemsRead(a[1..], y);
    } else {
      NoMeans(a[1..]);
    }
  }

  lemma CompactMembersHead(keys: seq<Text>, values: seq<Value>, y: Text)
    requires |keys| == |values| > 0
    ensures CompactMembers(keys, values) + [125] + y
         == [34] + (Escape(keys[0]) + [34] + ([58] + (Compact(values[0]) + Following(|values| > 1, CompactMembers(keys[1..], values[1..]), 125, y))))
    ensures CompactMembers(keys, values) != [] && CompactMembers(keys, values)[0] == 34
  {
    hide Compact, Escape;
    var e, w, rest := Escape(keys[0]), Compact(values[0]), CompactMembers(keys[1..], values[1..]);
    Regroup(e, w, if |values| > 1 then [44] else [], rest, y);
    if |values| == 1 { assert rest == [] && [] + ([] + [125] + y) == [125] + y; }
  }

  lemma {:induction false} CompactObject(keys: seq<Text>, values: seq<Value>, y: Text)
    requires WellFormed(Object(keys, values)) && Ends(y)
    ensures ReadsAs(Compact(Object(keys, values)), Mean(Object(keys, values)), y)
    decreases values, 1
  {
    hide Read, ReadMembers, Ends, Escape;
    ObjectReads(CompactMembers(keys, values), y);
    MeanObject(keys, values);
    if values != [] {
      CompactMembersHead(keys, values, y);
      CompactMembersRead(keys, values, y);
    }
    assert Compact(Object(keys, values)) == [123] + CompactMembers(keys, values) + [125];
  }

  lemma {:induction false} CompactMembersRead(keys: seq<Text>, values: seq<Value>, y: Text)
    requires |keys| == |values| > 0 && Distinct(keys) && (forall v <- values :: WellFormed(v)) && Ends(y)
    ensures ReadMembers(CompactMembers(keys, values) + [125] + y) == Some((MeanMembers(keys, values), y))
    decreases values, 0
  {
    hide Read, ReadMembers, Compact, CompactMembers, Mean, MeanMembers, Escape, Ends, Following;
    var rest := Following(|values| > 1, CompactMembers(keys[1..], values[1..]), 125, y);
    CompactMembersHead(keys, values, y);
    FollowingEnds(|values| > 1, CompactMembers(keys[1..], values[1..]), 125, y);
    CompactReads(values[0], rest);
    MemberReads(keys[0], Compact(values[0]), Mean(values[0]), rest);
    MeanMembersFirst(keys, values);
    if |values| > 1 { CompactMembersRead(keys[1..], values[1..], y); }
  }

  lemma MeanMembersFirst(keys: seq<Text>, values: seq<Value>)
    requires |keys| == |values| > 0 && Distinct(keys) && forall v <- values :: WellFormed(v)
    ensures MeanMembers(keys, values) == MeanMembers(keys[1..], values[1..])[keys[0] := Mean(values[0])]
    ensures |values| == 1 ==> MeanMembers(keys, values) == map[keys[0] := Mean(values[0])]
  {
    hide Mean;
    assert forall k :: k in keys <==> k == keys[0] || k in keys[1..];
    assert forall k <- keys | k != keys[0] :: Place(keys, k) == 1 + Place(keys[1..], k);
  }
}
