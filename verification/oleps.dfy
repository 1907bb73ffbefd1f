/** What the parser of module Ole2 makes of real summary information streams. In section 2.21 of
    [MS-OLEPS] the octets at 0x1C, where the parser takes the section offset from, are the first four
    of the FMTID; the offset follows at 0x2C. */
module Oleps {
  import opened Common
  import opened Ole2

  /** FMTID_SummaryInformation, {F29F85E0-4FF9-1068-AB91-08002B27B3D9}, as it stands in a stream. */
  const FMTID: Bytes := [0xE0, 0x85, 0x9F, 0xF2, 0xF9, 0x4F, 0x68, 0x10, 0xAB, 0x91, 0x08, 0x00, 0x2B, 0x27, 0xB3, 0xD9]

  const FMTID_AT := 0x1C
  const OFFSET_AT := 0x2C
  const FMTID_AS_OFFSET := 0xF29F_85E0

  predicate IsSummaryStream(data: Bytes) {
    |data| >= OFFSET_AT + 4 && data[FMTID_AT..OFFSET_AT] == FMTID
  }

  /** A summary information stream whose section, at the offset that follows the FMTID, holds these
      properties. */
  ghost predicate Conforms(data: Bytes, props: seq<Property>) {
    IsSummaryStream(data) && Holds(data, LE32(data, OFFSET_AT), props)
  }

  lemma FmtidReadsAsOffset(data: Bytes)
    requires IsSummaryStream(data)
    ensures LE32(data, FMTID_AT) == FMTID_AS_OFFSET
  {
    FourOctets(data, FMTID_AT);
    var fmtid := data[FMTID_AT..OFFSET_AT];
    assert fmtid[0] == data[0x1C] && fmtid[1] == data[0x1D] && fmtid[2] == data[0x1E] && fmtid[3] == data[0x1F];
  }

  /** The parser finds a section in a summary information stream exactly when the stream is longer
      than the FMTID read as an offset, some four gigabytes. */
  lemma SectionIsFoundExactlyWhenHuge(data: Bytes)
    requires IsSummaryStream(data)
    ensures HasSection(data) <==> |data| >= FMTID_AS_OFFSET + 8
    ensures |data| < FMTID_AS_OFFSET + 8 ==> Found(data, TITLE) == [] && Found(data, AUTHOR) == []
  {
    FmtidReadsAsOffset(data);
  }

  /** Of a conforming stream of ordinary length the parser returns what the stream says exactly when
      the stream says nothing. The same loop, started from the offset at 0x2C, would return it. */
  lemma ConformingTextIsFoundExactlyWhenEmpty(data: Bytes, props: seq<Property>, id: nat)
    requires Conforms(data, props) && |data| < FMTID_AS_OFFSET + 8
    ensures var n := Min(|props|, MAX_ENTRIES);
            && (Found(data, id) == LastText(props, id, n) <==> LastText(props, id, n) == [])
            && LastString(data, LE32(data, OFFSET_AT), id, n) == LastText(props, id, n)
  {
    SectionIsFoundExactlyWhenHuge(data);
    LastStringReadsLayout(data, LE32(data, OFFSET_AT), props, id, Min(|props|, MAX_ENTRIES));
  }

  /** A conforming writer: 28 octets of header, one FMTID and its offset, the section. */
  function Conforming(header: Bytes, size: Bytes, props: seq<Property>): Bytes
    requires |header| == 28 && |size| == 4 && AllValid(props)
  {
    header + (FMTID + (Put32(48) + (size + (Put32(|props|) + Body(props)))))
  }

  lemma BodyLength(props: seq<Property>)
    requires AllValid(props)
    ensures |Body(props)| + 8 == Size(props)
  {
    EntriesAreEightLong(props, ValuePieces(props, |props|), |props|, |props|);
  }

  lemma WriterConforms(header: Bytes, size: Bytes, props: seq<Property>)
    requires |header| == 28 && |size| == 4 && AllValid(props) && |props| < WORD32 && Size(props) < WORD32
    ensures Conforms(Conforming(header, size, props), props)
    ensures |Conforming(header, size, props)| == 48 + Size(props)
  {
    var data, content := Conforming(header, size, props), Body(props);
    var section := size + (Put32(|props|) + content);
    BodyLength(props);
    SliceInside(header, FMTID, Put32(48) + section, 0, 16);
    assert FMTID[0..16] == FMTID;
    Regroup(header, FMTID, Put32(48) + section);
    var before := header + FMTID;
    FieldAt(data, before, 48, section);
    Regroup(before, Put32(48), section);
    var start := before + Put32(48);
    Regroup(start, size, Put32(|props|) + content);
    FieldAt(data, start + size, |props|, content);
    Regroup(start + size, Put32(|props|), content);
    forall i | 0 <= i < |props|
      ensures EntryLaidOut(data, 48, i, props[i])
    {
      EncodedEntry((start + size) + Put32(|props|), props, i, data);
    }
  }

  /** The round trip fails for every conforming stream below four gigabytes: whatever string was
      written for an identifier, the parser returns none. */
  lemma WrittenTextIsLost(header: Bytes, size: Bytes, props: seq<Property>, k: nat, id: nat, s: Bytes)
    requires |header| == 28 && |size| == 4 && AllValid(props) && |props| <= 64
    requires 48 + Size(props) < FMTID_AS_OFFSET + 8
    requires s != [] && s[|s| - 1] != 0 && k < |props| && props[k] == Text(id, s)
    requires forall j | k < j < |props| :: props[j].id == id ==> props[j].Other? || props[j].payload == []
    ensures var data := Conforming(header, size, props);
            Conforms(data, props) && LastText(props, id, |props|) == s && Found(data, id) == []
  {
    WriterConforms(header, size, props);
    SectionIsFoundExactlyWhenHuge(Conforming(header, size, props));
    LastTextIs(props, id, k, |props|);
    assert TrimNul(s) == s;
  }

  /** The stream with no other property than the title "A". */
  lemma OneTitleIsLost(header: Bytes, size: Bytes)
    requires |header| == 28 && |size| == 4
    ensures var props := [Text(TITLE, [0x41])];
            AllValid(props) && Conforms(Conforming(header, size, props), props)
            && |Conforming(header, size, props)| == 73 && Found(Conforming(header, size, props), TITLE) == []
  {
    var props := [Text(TITLE, [0x41])];
    OneTitleSize();
    WriterConforms(header, size, props);
    WrittenTextIsLost(header, size, props, 0, TITLE, [0x41]);
  }

  lemma OneTitleSize()
    ensures var props := [Text(TITLE, [0x41])]; AllValid(props) && Size(props) == 25
  {
    var props := [Text(TITLE, [0x41])];
    var values := ValuePieces(props, 1);
    assert values == [ValueOf(props[0])];
    assert Flatten(values, 1) == ValueOf(props[0]);
  }
}
