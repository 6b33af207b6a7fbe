/**
 The byte stream that the canonical digest summarises: every piece framed by its
 length, nine sections, each with its name, its count and its records.
 */
module CanonicalStream {
  import opened CanonicalJson

  /** Eight-byte big-endian numbers. */

  function Pow(k: nat): (p: nat)
    ensures p > 0
  {
    if k == 0 then 1 else 256 * Pow(k - 1)
  }

  function Big(n: nat, k: nat): (b: Text)
    ensures |b| == k
  {
    if k == 0 then [] else Big(n / 256, k - 1) + [n % 256]
  }

  lemma {:induction false} BigExact(a: nat, b: nat, k: nat)
    requires a < Pow(k) && b < Pow(k) && Big(a, k) == Big(b, k)
    ensures a == b
  {
    if k > 0 {
      assert Big(a, k)[..k - 1] == Big(a / 256, k - 1) && Big(b, k)[..k - 1] == Big(b / 256, k - 1);
      assert Big(a, k)[k - 1] == a % 256 && Big(b, k)[k - 1] == b % 256;
      BigExact(a / 256, b / 256, k - 1);
    }
  }

  /** Frames. */

  // What fits a 64-bit length.
  predicate Fits(x: Text) { |x| < Pow(8) }

  function Frame(x: Text): Text { Big(|x|, 8) + x }

  function Frames(xs: seq<Text>): Text {
    if xs == [] then [] else Frame(xs[0]) + Frames(xs[1..])
  }

  lemma FrameSplit(a: Text, b: Text, x: Text, y: Text)
    requires Fits(a) && Fits(b) && Frame(a) + x == Frame(b) + y
    ensures a == b && x == y
  {
    hide Big, Pow;
    var s, t := Frame(a) + x, Frame(b) + y;
    assert s[..8] == Big(|a|, 8) && t[..8] == Big(|b|, 8);
    BigExact(|a|, |b|, 8);
    assert s[8..8 + |a|] == a && t[8..8 + |b|] == b;
    assert s[8 + |a|..] == x && t[8 + |b|..] == y;
  }

  // A stream of frames is read back in one way only.
  lemma {:induction false} FramesExact(xs: seq<Text>, ys: seq<Text>)
    requires (forall x <- xs :: Fits(x)) && (forall y <- ys :: Fits(y)) && Frames(xs) == Frames(ys)
    ensures xs == ys
  {
    hide Big, Pow, Fits;
    if xs != [] && ys != [] {
      FrameSplit(xs[0], ys[0], Frames(xs[1..]), Frames(ys[1..]));
      FramesExact(xs[1..], ys[1..]);
      assert xs == [xs[0]] + xs[1..] && ys == [ys[0]] + ys[1..];
    }
  }

  lemma {:induction false} FramesAppend(xs: seq<Text>, ys: seq<Text>)
    ensures Frames(xs + ys) == Frames(xs) + Frames(ys)
  {
    if xs == [] {
      assert xs + ys == ys;
    } else {
      assert (xs + ys)[1..] == xs[1..] + ys;
      FramesAppend(xs[1..], ys);
    }
  }

  /** Sections. */

  datatype Section = Section(name: Text, records: seq<Value>)

  ghost predicate Printable(s: Section) {
    && Fits(s.name) && |s.records| < Pow(8)
    && forall r <- s.records :: WellFormed(r) && Fits(Write(r))
  }

  ghost function Printed(records: seq<Value>): (lines: seq<Text>)
    requires forall r <- records :: WellFormed(r)
    ensures |lines| == |records|
  {
    seq(|records|, i requires 0 <= i < |records| => Write(records[i]))
  }

  ghost function Lines(s: Section): seq<Text>
    requires Printable(s)
  {
    [s.name, Big(|s.records|, 8)] + Printed(s.records)
  }

  ghost function AllLines(sections: seq<Section>): seq<Text>
    requires forall s <- sections :: Printable(s)
  {
    if sections == [] then [] else Lines(sections[0]) + AllLines(sections[1..])
  }

  const DOMAIN: Text := [
    112, 105, 116, 99, 104, 100, 111, 103, 45, 114, 101, 102, 101, 114, 101, 110, 99, 101, 45, 99, 97, 110, 111, 110, 105,
    99, 97, 108, 45, 112, 114, 111, 106, 101, 99, 116, 105, 111, 110, 0, 118, 49]

  ghost function Preimage(sections: seq<Section>): Text
    requires forall s <- sections :: Printable(s)
  {
    Frames([DOMAIN] + AllLines(sections))
  }

  lemma LinesFit(s: Section)
    requires Printable(s)
    ensures forall x <- Lines(s) :: Fits(x)
  {
    hide Pow, Big;
    forall x <- Lines(s) ensures Fits(x) {
      if x == Big(|s.records|, 8) { Eight(); }
    }
  }

  lemma Eight()
    ensures Pow(8) > 100
  {
    assert Pow(8) == 256 * Pow(7) && Pow(7) > 0;
  }

  lemma {:induction false} AllLinesFit(sections: seq<Section>)
    requires forall s <- sections :: Printable(s)
    ensures forall x <- AllLines(sections) :: Fits(x)
  {
    hide Fits, Printable, Lines;
    if sections != [] {
      LinesFit(sections[0]);
      AllLinesFit(sections[1..]);
    }
  }

  // The records of two sections mean the same, one by one.
  ghost predicate SameRecords(a: Section, b: Section)
    requires Printable(a) && Printable(b)
  {
    |a.records| == |b.records| && forall i | 0 <= i < |a.records| :: Mean(a.records[i]) == Mean(b.records[i])
  }

  lemma LinesSplit(a: Section, b: Section, x: seq<Text>, y: seq<Text>)
    requires Printable(a) && Printable(b)
    requires Lines(a) + x == Lines(b) + y
    ensures SameRecords(a, b) && x == y
  {
    hide Pow, Big, Fits, WellFormed, Mean, Write;
    var s, t := Lines(a) + x, Lines(b) + y;
    assert s[1] == t[1];
    BigExact(|a.records|, |b.records|, 8);
    assert s[|Lines(a)|..] == x && t[|Lines(b)|..] == y;
    forall i | 0 <= i < |a.records| ensures Mean(a.records[i]) == Mean(b.records[i]) {
      assert s[i + 2] == Write(a.records[i]) && t[i + 2] == Write(b.records[i]);
      WriteExact(a.records[i], b.records[i]);
    }
  }

  lemma {:induction false} AllLinesSplit(a: seq<Section>, b: seq<Section>)
    requires |a| == |b| && (forall s <- a :: Printable(s)) && forall s <- b :: Printable(s)
    requires AllLines(a) == AllLines(b)
    ensures forall i | 0 <= i < |a| :: SameRecords(a[i], b[i])
  {
    hide Printable, Lines, SameRecords;
    if a != [] {
      LinesSplit(a[0], b[0], AllLines(a[1..]), AllLines(b[1..]));
      AllLinesSplit(a[1..], b[1..]);
      forall i | 0 <= i < |a| ensures SameRecords(a[i], b[i]) {
        if i > 0 { assert a[i] == a[1..][i - 1] && b[i] == b[1..][i - 1]; }
      }
    }
  }

  lemma SameLines(a: Section, b: Section)
    requires Printable(a) && Printable(b) && a.name == b.name && SameRecords(a, b)
    ensures Lines(a) == Lines(b)
  {
    hide Pow, Big, Fits, WellFormed, Mean, Write;
    forall i | 0 <= i < |a.records| ensures Write(a.records[i]) == Write(b.records[i]) {
      WriteExact(a.records[i], b.records[i]);
    }
    assert Printed(a.records) == Printed(b.records);
  }

  lemma {:induction false} SameAllLines(a: seq<Section>, b: seq<Section>)
    requires |a| == |b| && (forall s <- a :: Printable(s)) && forall s <- b :: Printable(s)
    requires forall i | 0 <= i < |a| :: a[i].name == b[i].name && SameRecords(a[i], b[i])
    ensures AllLines(a) == AllLines(b)
  {
    hide Printable, Lines, SameRecords;
    if a != [] {
      SameLines(a[0], b[0]);
      SameAllLines(a[1..], b[1..]);
    }
  }

  // Two streams over the same sections are equal exactly when every section has
  // as many records and they mean the same, one by one.
  lemma StreamExact(a: seq<Section>, b: seq<Section>)
    requires |a| == |b| && (forall s <- a :: Printable(s)) && forall s <- b :: Printable(s)
    requires forall i | 0 <= i < |a| :: a[i].name == b[i].name
    ensures Preimage(a) == Preimage(b) <==> forall i | 0 <= i < |a| :: SameRecords(a[i], b[i])
  {
    hide Printable, AllLines, SameRecords, Frames;
    if Preimage(a) == Preimage(b) {
      DomainFits();
      AllLinesFit(a);
      AllLinesFit(b);
      FramesExact([DOMAIN] + AllLines(a), [DOMAIN] + AllLines(b));
      assert ([DOMAIN] + AllLines(a))[1..] == AllLines(a) && ([DOMAIN] + AllLines(b))[1..] == AllLines(b);
      AllLinesSplit(a, b);
    }
    if forall i | 0 <= i < |a| :: SameRecords(a[i], b[i]) {
      SameAllLines(a, b);
    }
  }

  lemma DomainFits()
    ensures Fits(DOMAIN)
  {
    Eight();
  }

  /** The hasher, with the bytes it was fed. */

  class Hasher {
    var input: Text

    constructor ()
      ensures input == []
    {
      input := [];
    }

    method Update(bytes: Text)
      modifies this
      ensures input == old(input) + bytes
    {
      input := input + bytes;
    }

    method WriteFrame(bytes: Text)
      modifies this
      ensures input == old(input) + Frame(bytes)
    {
      hide Big;
      Update(Big(|bytes|, 8));
      Update(bytes);
      assert old(input) + (Big(|bytes|, 8) + bytes) == (old(input) + Big(|bytes|, 8)) + bytes;
    }
  }

  method CanonicalBytes(record: Value) returns (bytes: Text)
    requires WellFormed(record)
    ensures bytes == Write(record)
  {
    var output := new Output();
    output.WriteJson(record);
    bytes := output.bytes;
  }

  lemma FrameLast(xs: seq<Text>, x: Text)
    ensures Frames(xs + [x]) == Frames(xs) + Frame(x)
  {
    FramesAppend(xs, [x]);
    assert [x][1..] == [];
    assert Frame(x) + [] == Frame(x);
  }

  method HashSection(hasher: Hasher, section: Section, ghost before: seq<Text>)
    requires Printable(section) && hasher.input == Frames(before)
    modifies hasher
    ensures hasher.input == Frames(before + Lines(section))
  {
    hide Printable, Big, Pow, Frames, Write, Frame;
    hasher.WriteFrame(section.name);
    FrameLast(before, section.name);
    hasher.WriteFrame(Big(|section.records|, 8));
    FrameLast(before + [section.name], Big(|section.records|, 8));
    ghost var fed := before + [section.name] + [Big(|section.records|, 8)];
    for i := 0 to |section.records|
      invariant Printable(section)
      invariant hasher.input == Frames(fed) && fed == before + Lines(section)[..i + 2]
    {
      assert WellFormed(section.records[i]) by { RecordPrints(section, i); }
      var bytes := CanonicalBytes(section.records[i]);
      hasher.WriteFrame(bytes);
      FrameLast(fed, bytes);
      fed := fed + [bytes];
      assert Lines(section)[i + 2] == bytes by { RecordPrints(section, i); }
    }
    assert Lines(section)[..|section.records| + 2] == Lines(section) by { LinesLength(section); }
  }

  lemma LinesLength(section: Section)
    requires Printable(section)
    ensures |Lines(section)| == |section.records| + 2
  {
  }

  lemma RecordPrints(section: Section, i: nat)
    requires Printable(section) && i < |section.records|
    ensures WellFormed(section.records[i]) && |Lines(section)| == |section.records| + 2
    ensures Lines(section)[i + 2] == Write(section.records[i])
  {
  }

  lemma {:induction false} AllLinesAppend(a: seq<Section>, s: Section)
    requires (forall x <- a :: Printable(x)) && Printable(s)
    ensures AllLines(a + [s]) == AllLines(a) + Lines(s)
  {
    hide Printable, Lines;
    if a == [] {
      assert [] + [s] == [s] && [s][1..] == [];
      assert AllLines([s]) == Lines(s) + AllLines([]);
    } else {
      assert (a + [s])[1..] == a[1..] + [s];
      AllLinesAppend(a[1..], s);
    }
  }

  // The domain, then every section; the counts are those that were hashed.
  method DigestSnapshot(sections: seq<Section>) returns (hasher: Hasher, counts: seq<nat>)
    requires forall s <- sections :: Printable(s)
    ensures fresh(hasher) && hasher.input == Preimage(sections)
    ensures |counts| == |sections| && forall i | 0 <= i < |sections| :: counts[i] == |sections[i].records|
  {
    hide Printable, Frames, Lines, AllLines;
    hasher := new Hasher();
    ghost var fed: seq<Text> := [DOMAIN];
    FrameLast([], DOMAIN);
    NoFrames();
    hasher.WriteFrame(DOMAIN);
    assert [] + [DOMAIN] == [DOMAIN];
    assert fed == [DOMAIN] + AllLines(sections[..0]) by { NoLines(); }
    counts := [];
    for i := 0 to |sections|
      invariant hasher.input == Frames(fed) && fed == [DOMAIN] + AllLines(sections[..i])
      invariant |counts| == i && forall k | 0 <= k < i :: counts[k] == |sections[k].records|
    {
      HashSection(hasher, sections[i], fed);
      assert sections[..i + 1] == sections[..i] + [sections[i]];
      AllLinesAppend(sections[..i], sections[i]);
      fed := fed + Lines(sections[i]);
      counts := counts + [|sections[i].records|];
    }
    assert sections[..|sections|] == sections;
  }

  lemma NoFrames()
    ensures Frames([]) == []
  {
  }

  lemma NoLines()
    ensures AllLines([]) == []
  {
  }
}
