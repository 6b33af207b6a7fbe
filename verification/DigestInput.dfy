/**
 The bytes that the digest is taken of, as a reader of length-prefixed frames
 takes them apart: the domain, then every section's name, its count, and its
 records.
 */
module DigestInput {
  import opened Wrappers
  import opened Tables
  import opened CanonicalJson
  import opened CanonicalStream
  import opened WireFrames
  import Records = CanonicalRecords
  import Docs = CanonicalDocuments
  import Pages = CanonicalPages
  import Reader = JsonReader

  // The frames of a stream, each after eight bytes that hold its length.
  ghost function Unframed(bytes: Text): Option<seq<Text>>
    decreases |bytes|
  {
    if bytes == [] then Some([])
    else if |bytes| < 8 then None
    else
      var n := FromBig(bytes[..8]);
      if |bytes| - 8 < n then None
      else
        match Unframed(bytes[8 + n..])
        case Some(rest) => Some([bytes[8..8 + n]] + rest)
        case None => None
  }

  lemma FrameReads(x: Text, rest: Text)
    requires Fits(x)
    ensures Unframed(Frame(x) + rest) == match Unframed(rest) case Some(xs) => Some([x] + xs) case None => None
  {
    hide Big, Pow, FromBig;
    BigReads(|x|, 8);
    var bytes := Frame(x) + rest;
    assert bytes[..8] == Big(|x|, 8) && bytes[8..8 + |x|] == x && bytes[8 + |x|..] == rest;
  }

  lemma {:induction false} FramesRead(xs: seq<Text>)
    requires forall x <- xs :: Fits(x)
    ensures Unframed(Frames(xs)) == Some(xs)
  {
    hide Fits, Frame;
    if xs != [] {
      FramesRead(xs[1..]);
      FrameReads(xs[0], Frames(xs[1..]));
      assert xs == [xs[0]] + xs[1..];
    }
  }

  // The frames tell the sections: a name, eight bytes of count, and so many
  // documents, each readable to its end.
  ghost predicate Tells(parts: seq<Text>, sections: seq<Section>)
    requires forall s <- sections :: Printable(s)
    decreases |sections|
  {
    if sections == [] then parts == [] else
      var s := sections[0];
      var n := |s.records|;
      && |parts| >= 2 + n
      && parts[0] == s.name && |parts[1]| == 8 && FromBig(parts[1]) == n
      && (forall i | 0 <= i < n :: WellFormed(s.records[i]) && Reader.Read(parts[2 + i]) == Some((Mean(s.records[i]), [])))
      && Tells(parts[2 + n..], sections[1..])
  }

  lemma LinesTell(s: Section, rest: seq<Text>)
    requires Printable(s)
    ensures var parts, n := Lines(s) + rest, |s.records|;
      && |parts| >= 2 + n && parts[2 + n..] == rest
      && parts[0] == s.name && |parts[1]| == 8 && FromBig(parts[1]) == n
      && forall i | 0 <= i < n :: WellFormed(s.records[i]) && Reader.Read(parts[2 + i]) == Some((Mean(s.records[i]), []))
  {
    hide Big, Pow, FromBig, Fits, Write, WellFormed, Mean, Reader.Read;
    var parts := Lines(s) + rest;
    BigReads(|s.records|, 8);
    forall i | 0 <= i < |s.records| ensures WellFormed(s.records[i]) && Reader.Read(parts[2 + i]) == Some((Mean(s.records[i]), [])) {
      assert s.records[i] in s.records && parts[2 + i] == Write(s.records[i]);
      Reader.CanonicalReads(s.records[i], []);
      assert Write(s.records[i]) + [] == Write(s.records[i]);
    }
  }

  lemma {:induction false} AllLinesTell(sections: seq<Section>)
    requires forall s <- sections :: Printable(s)
    ensures Tells(AllLines(sections), sections)
  {
    hide Lines, Printable, FromBig, Reader.Read;
    if sections != [] {
      LinesTell(sections[0], AllLines(sections[1..]));
      AllLinesTell(sections[1..]);
    }
  }

  // The input of any sections.
  lemma InputReads(sections: seq<Section>) returns (parts: seq<Text>)
    requires forall s <- sections :: Printable(s)
    ensures Tells(parts, sections)
    ensures Unframed(Preimage(sections))
         == Some([Pages.Ascii("pitchdog-reference-canonical-projection") + [0] + Pages.Ascii("v1")] + parts)
  {
    hide Fits, Printable, AllLines, Tells, Unframed, Frames, Pages.Ascii;
    parts := AllLines(sections);
    AllLinesTell(sections);
    AllLinesFit(sections);
    DomainFits();
    Docs.DomainSays();
    FramesRead([DOMAIN] + parts);
  }

  // The input of a catalogue: every section in its place, and in it the document
  // of every row.
  lemma CatalogueInput(e: Records.Encoding, t: Tables, i: nat) returns (parts: seq<Text>)
    requires Records.Faithful(e) && i < |Docs.SECTION_NAMES|
    requires forall s <- Records.Sections(e, t) :: Printable(s)
    ensures Tells(parts, Records.Sections(e, t))
    ensures Unframed(Preimage(Records.Sections(e, t)))
         == Some([Pages.Ascii("pitchdog-reference-canonical-projection") + [0] + Pages.Ascii("v1")] + parts)
    ensures |Records.Sections(e, t)| == 9
    ensures var s := Records.Sections(e, t)[i];
      && s.name == e.utf8(Docs.SECTION_NAMES[i])
      && (forall v <- s.records :: WellFormed(v) && Mean(v) in Docs.Docs(e, t, i))
      && (forall d <- Docs.Docs(e, t, i) :: exists v :: v in s.records && WellFormed(v) && Mean(v) == d)
  {
    hide Printable, Tells, Unframed, Preimage, Records.Sections, Records.Faithful, Docs.Docs, Pages.Ascii, WellFormed, Mean;
    parts := InputReads(Records.Sections(e, t));
    Docs.SectionSays(e, t, i);
  }
}
