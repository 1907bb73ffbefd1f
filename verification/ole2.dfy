/** The OLE2 summary information parser of internal/meta/extractor.go: offsets read from the bytes
    lead to more offsets. Property identifiers, types and strings are those of [MS-OLEPS] sections
    2.15, 2.20 and 2.21, but the section offset is taken from byte 0x1C as the code does. */
module Ole2 {
  import opened Common

  // Go's int on a 64-bit platform: an overflow would be a verification error.
  newtype int64 = x: int | -0x8000_0000_0000_0000 <= x < 0x8000_0000_0000_0000

  const TITLE := 2
  const AUTHOR := 4
  const VT_LPSTR := 0x1E
  const MAX_ENTRIES := 64
  // len(data) is an int.
  const MAX_LENGTH := 0x7fff_ffff_ffff_ffff
  const WORD32 := 0x1_0000_0000

  // Octets, least significant first.
  function Decode(w: Bytes): nat {
    if w == [] then 0 else (w[0] as int) + 0x100 * Decode(w[1..])
  }

  function Power(k: nat): nat {
    if k == 0 then 1 else 0x100 * Power(k - 1)
  }

  lemma {:induction false} DecodeBound(w: Bytes)
    ensures Decode(w) < Power(|w|)
  {
    if w != [] {
      DecodeBound(w[1..]);
    }
  }

  function LE32(data: Bytes, i: nat): (v: nat)
    requires i + 4 <= |data|
    ensures v < WORD32
  {
    DecodeBound(data[i..i + 4]);
    assert Power(4) == WORD32;
    Decode(data[i..i + 4])
  }

  lemma DecodeCons(b: byte, w: Bytes)
    ensures Decode([b] + w) == (b as int) + 0x100 * Decode(w)
  {
    assert ([b] + w)[1..] == w;
  }

  lemma FourOctets(data: Bytes, i: nat)
    requires i + 4 <= |data|
    ensures LE32(data, i) == (data[i] as int) + 0x100 * ((data[i + 1] as int)
                             + 0x100 * ((data[i + 2] as int) + 0x100 * (data[i + 3] as int)))
  {
    var b0, b1, b2, b3 := data[i], data[i + 1], data[i + 2], data[i + 3];
    assert data[i..i + 4] == [b0] + ([b1] + ([b2] + ([b3] + [])));
    DecodeCons(b3, []);
    DecodeCons(b2, [b3] + []);
    DecodeCons(b1, [b2] + ([b3] + []));
    DecodeCons(b0, [b1] + ([b2] + ([b3] + [])));
  }

  function TrimNul(s: Bytes): Bytes {
    if s != [] && s[|s| - 1] == 0 then TrimNul(s[..|s| - 1]) else s
  }

  // ── What the bytes say ────────────────────────────────────────────────────────

  /** The string that entry i of the section at `section` leads to, if it leads to one. */
  function StringAt(data: Bytes, section: nat, i: nat): Option<Bytes> {
    var base := section + 8 + 8 * i;
    if base + 8 > |data| then None
    else
      var at := section + LE32(data, base + 4);
      if at + 8 > |data| || LE32(data, at) != VT_LPSTR then None
      else
        var len := LE32(data, at + 4);
        if at + 8 + len > |data| || len == 0 then None else Some(TrimNul(data[at + 8..at + 8 + len]))
  }

  function IdAt(data: Bytes, section: nat, i: nat): nat {
    var base := section + 8 + 8 * i;
    if base + 8 > |data| then 0 else LE32(data, base)
  }

  /** The last valid string with this identifier among the first n entries. */
  function LastString(data: Bytes, section: nat, id: nat, n: nat): Bytes {
    if n == 0 then []
    else if IdAt(data, section, n - 1) == id && StringAt(data, section, n - 1).Some? then StringAt(data, section, n - 1).value
    else LastString(data, section, id, n - 1)
  }

  predicate HasSection(data: Bytes) {
    |data| >= 52 && LE32(data, 0x1C) + 8 <= |data|
  }

  function Section(data: Bytes): nat
    requires HasSection(data)
  {
    LE32(data, 0x1C)
  }

  function Min(a: nat, b: nat): nat {
    if a < b then a else b
  }

  // How many entries are looked at.
  function Entries(data: Bytes): nat
    requires HasSection(data)
  {
    Min(LE32(data, Section(data) + 4), MAX_ENTRIES)
  }

  function Found(data: Bytes, id: nat): Bytes {
    if HasSection(data) then LastString(data, Section(data), id, Entries(data)) else []
  }

  // ── The parser ────────────────────────────────────────────────────────────────

  method ReadLE32(data: Bytes, i: int64) returns (v: int64)
    requires |data| <= MAX_LENGTH && 0 <= i as int && i as int + 4 <= |data|
    ensures v as int == LE32(data, i as int)
  {
    FourOctets(data, i as int);
    v := (data[i] as int64) + (data[i + 1] as int64) * 0x100 + (data[i + 2] as int64) * 0x1_0000
       + (data[i + 3] as int64) * 0x100_0000;
  }

  method TrimRight(s: Bytes) returns (r: Bytes)
    ensures r == TrimNul(s)
  {
    r := s;
    while r != [] && r[|r| - 1] == 0
      invariant TrimNul(r) == TrimNul(s)
    {
      r := r[..|r| - 1];
    }
  }

  /** The part of the loop body that looks at the value of one entry. */
  method ReadString(data: Bytes, sectionOffset: int64, base: int64, ghost i: nat) returns (s: Option<Bytes>)
    requires |data| <= MAX_LENGTH
    requires 0 <= sectionOffset as int < WORD32 && base as int == sectionOffset as int + 8 + 8 * i && base as int + 8 <= |data|
    ensures s == StringAt(data, sectionOffset as int, i)
  {
    var length := |data| as int64;
    var propOffset := ReadLE32(data, base + 4);
    var at := sectionOffset + propOffset;
    if at + 8 > length {
      return None;
    }
    var vtype := ReadLE32(data, at);
    if vtype != 0x1E {
      return None;
    }
    var strLen := ReadLE32(data, at + 4);
    if at + 8 + strLen > length || strLen <= 0 {
      return None;
    }
    var trimmed := TrimRight(data[at + 8..at + 8 + strLen]);
    s := Some(trimmed);
  }

  // Entries past the end of the data say nothing, so stopping there is the same as going on.
  lemma {:induction false} NothingPastTheEnd(data: Bytes, section: nat, id: nat, i: nat, n: nat)
    requires section + 8 + 8 * i + 8 > |data| && i <= n && id > 0
    ensures LastString(data, section, id, n) == LastString(data, section, id, i)
  {
    if i < n {
      NothingPastTheEnd(data, section, id, i, n - 1);
    }
  }

  lemma NextEntry(data: Bytes, section: nat, id: nat, i: nat)
    requires section + 8 + 8 * i + 8 <= |data|
    ensures var s := StringAt(data, section, i);
            LastString(data, section, id, i + 1)
            == if s.Some? && LE32(data, section + 8 + 8 * i) == id then s.value else LastString(data, section, id, i)
  {
  }

  /** The loop body, for an entry that lies inside the data. */
  method ReadEntry(data: Bytes, sectionOffset: int64, base: int64, ghost i: nat, title: Bytes, author: Bytes)
    returns (title': Bytes, author': Bytes)
    requires |data| <= MAX_LENGTH
    requires 0 <= sectionOffset as int < WORD32 && base as int == sectionOffset as int + 8 + 8 * i && base as int + 8 <= |data|
    requires title == LastString(data, sectionOffset as int, TITLE, i)
    requires author == LastString(data, sectionOffset as int, AUTHOR, i)
    ensures title' == LastString(data, sectionOffset as int, TITLE, i + 1)
    ensures author' == LastString(data, sectionOffset as int, AUTHOR, i + 1)
  {
    title', author' := title, author;
    NextEntry(data, sectionOffset as int, TITLE, i);
    NextEntry(data, sectionOffset as int, AUTHOR, i);
    var propID := ReadLE32(data, base);
    var s := ReadString(data, sectionOffset, base, i);
    if s.Some? {
      match propID
      case 2 => title' := s.value;
      case 4 => author' := s.value;
      case _ =>
    }
  }

  /** On any bytes at all: no index out of range, no overflow, and the result is the last valid title
      and author among the entries looked at. */
  method ParseSummaryInfo(data: Bytes) returns (title: Bytes, author: Bytes)
    requires |data| <= MAX_LENGTH
    ensures title == Found(data, 2)
    ensures author == Found(data, 4)
    ensures |data| < 52 ==> title == [] && author == []
  {
    title, author := [], [];
    var length := |data| as int64;
    if length < 52 {
      return;
    }
    var sectionOffset := ReadLE32(data, 0x1C);
    if sectionOffset + 8 > length {
      return;
    }
    ghost var section := sectionOffset as int;
    assert HasSection(data) && section == Section(data);
    var propCount := ReadLE32(data, sectionOffset + 4);
    ghost var n := Entries(data);
    var i: int64 := 0;
    while i < propCount && i < 64
      invariant 0 <= i as int <= n
      invariant title == LastString(data, section, TITLE, i as int)
      invariant author == LastString(data, section, AUTHOR, i as int)
    {
      var base := sectionOffset + 8 + i * 8;
      if base + 8 > length {
        NothingPastTheEnd(data, section, TITLE, i as int, n);
        NothingPastTheEnd(data, section, AUTHOR, i as int, n);
        return;
      }
      title, author := ReadEntry(data, sectionOffset, base, i as int, title, author);
      i := i + 1;
    }
    assert i as int == n;
  }

  // ── Streams in the layout that the parser reads ───────────────────────────────

  /** A string property, or one of another type whose value is at least four octets long. */
  datatype Property = Text(id: nat, payload: Bytes) | Other(id: nat, vtype: nat, value: Bytes) {
    predicate Valid() {
      id < WORD32 && (Text? ==> |payload| < WORD32) && (Other? ==> vtype < WORD32 && vtype != 0x1E && |value| >= 4)
    }
  }

  /** The string of the last non-empty text property with this identifier among the first n. */
  function LastText(props: seq<Property>, id: nat, n: nat): Bytes
    requires n <= |props|
  {
    if n == 0 then []
    else
      var p := props[n - 1];
      if p.Text? && p.id == id && p.payload != [] then TrimNul(p.payload) else LastText(props, id, n - 1)
  }

  predicate EntryLaidOut(data: Bytes, section: nat, i: nat, p: Property) {
    var base := section + 8 + 8 * i;
    && base + 8 <= |data|
    && LE32(data, base) == p.id
    && var at := section + LE32(data, base + 4);
       && at + 8 <= |data|
       && (p.Text? ==>
             && LE32(data, at) == 0x1E && LE32(data, at + 4) == |p.payload|
             && at + 8 + |p.payload| <= |data| && data[at + 8..at + 8 + |p.payload|] == p.payload)
       && (p.Other? ==> LE32(data, at) != 0x1E)
  }

  // The section starting there holds these properties.
  ghost predicate Holds(data: Bytes, section: nat, props: seq<Property>) {
    && section + 8 <= |data|
    && LE32(data, section + 4) == |props|
    && forall i | 0 <= i < |props| :: EntryLaidOut(data, section, i, props[i])
  }

  ghost predicate LaidOut(data: Bytes, props: seq<Property>) {
    HasSection(data) && Holds(data, Section(data), props)
  }

  lemma LaidOutEntryReads(data: Bytes, section: nat, i: nat, p: Property)
    requires EntryLaidOut(data, section, i, p)
    ensures IdAt(data, section, i) == p.id
    ensures StringAt(data, section, i) == if p.Text? && p.payload != [] then Some(TrimNul(p.payload)) else None
  {
  }

  lemma {:induction false} LastStringReadsLayout(data: Bytes, section: nat, props: seq<Property>, id: nat, n: nat)
    requires Holds(data, section, props) && n <= |props|
    ensures LastString(data, section, id, n) == LastText(props, id, n)
  {
    if n > 0 {
      LaidOutEntryReads(data, section, n - 1, props[n - 1]);
      LastStringReadsLayout(data, section, props, id, n - 1);
    }
  }

  /** Wherever the values are placed and in whatever order the entries come, the parser finds the
      last title and author among the first 64. */
  lemma ParserReadsLayout(data: Bytes, props: seq<Property>, id: nat)
    requires LaidOut(data, props)
    ensures Found(data, id) == LastText(props, id, if |props| < 64 then |props| else 64)
  {
    LastStringReadsLayout(data, Section(data), props, id, Min(|props|, MAX_ENTRIES));
  }

  // ── A writer ──────────────────────────────────────────────────────────────────

  // The low 8k bits of v in k octets.
  function Octets(v: nat, k: nat): (b: Bytes)
    ensures |b| == k
  {
    if k == 0 then [] else [v % 0x100] + Octets(v / 0x100, k - 1)
  }

  function Put32(v: nat): (b: Bytes)
    ensures |b| == 4
  {
    Octets(v, 4)
  }

  lemma {:induction false} DecodeOctets(v: nat, k: nat)
    requires v < Power(k)
    ensures Decode(Octets(v, k)) == v
  {
    if k > 0 {
      DecodeOctets(v / 0x100, k - 1);
      assert Octets(v, k)[1..] == Octets(v / 0x100, k - 1);
    }
  }

  lemma Put32Decodes(v: nat)
    requires v < WORD32
    ensures Decode(Put32(v)) == v
  {
    assert Power(4) == WORD32;
    DecodeOctets(v, 4);
  }

  function ValueOf(p: Property): Bytes
    requires p.Valid()
  {
    match p
    case Text(_, payload) => Put32(VT_LPSTR) + (Put32(|payload|) + payload)
    case Other(_, vtype, value) => Put32(vtype) + value
  }

  predicate AllValid(props: seq<Property>) {
    forall i | 0 <= i < |props| :: props[i].Valid()
  }

  // The first n pieces, one after the other.
  function Flatten(pieces: seq<Bytes>, n: nat): Bytes
    requires n <= |pieces|
  {
    if n == 0 then [] else Flatten(pieces, n - 1) + pieces[n - 1]
  }

  function ValuePieces(props: seq<Property>, n: nat): (v: seq<Bytes>)
    requires AllValid(props) && n <= |props|
    ensures |v| == n
  {
    if n == 0 then [] else ValuePieces(props, n - 1) + [ValueOf(props[n - 1])]
  }

  // The eight octets of one directory entry.
  function EntryOf(id: nat, offset: nat): (b: Bytes)
    ensures |b| == 8
  {
    Put32(id) + Put32(offset)
  }

  // Where value i starts, counted from the start of the section.
  function OffsetOf(values: seq<Bytes>, i: nat): nat
    requires i <= |values|
  {
    8 + 8 * |values| + |Flatten(values, i)|
  }

  // One entry per property.
  function EntryPieces(props: seq<Property>, values: seq<Bytes>, n: nat): (d: seq<Bytes>)
    requires n <= |props| == |values|
    ensures |d| == n
  {
    if n == 0 then [] else EntryPieces(props, values, n - 1) + [EntryOf(props[n - 1].id, OffsetOf(values, n - 1))]
  }

  function Size(props: seq<Property>): nat
    requires AllValid(props)
  {
    OffsetOf(ValuePieces(props, |props|), |props|)
  }

  function Body(props: seq<Property>): Bytes
    requires AllValid(props)
  {
    var values := ValuePieces(props, |props|);
    Flatten(EntryPieces(props, values, |props|), |props|) + Flatten(values, |props|)
  }

  /** A property set stream: 28 octets of header, the section offset where the parser looks for it,
      any filler, and the section with its size field, count, directory and values. */
  function Encode(header: Bytes, filler: Bytes, size: Bytes, props: seq<Property>): Bytes
    requires |header| == 28 && |size| == 4 && AllValid(props)
  {
    header + (Put32(32 + |filler|) + (filler + (size + (Put32(|props|) + Body(props)))))
  }

  lemma SliceInside(before: Bytes, x: Bytes, after: Bytes, lo: nat, hi: nat)
    requires lo <= hi <= |x|
    ensures (before + (x + after))[|before| + lo..|before| + hi] == x[lo..hi]
  {
  }

  lemma FieldAt(data: Bytes, before: Bytes, v: nat, after: Bytes)
    requires v < WORD32 && data == before + (Put32(v) + after)
    ensures |before| + 4 <= |data| && LE32(data, |before|) == v
  {
    var w := Put32(v);
    SliceInside(before, w, after, 0, 4);
    assert w[0..4] == w;
    Put32Decodes(v);
  }

  lemma Regroup(a: Bytes, b: Bytes, c: Bytes)
    ensures a + (b + c) == (a + b) + c
  {
  }

  lemma RegroupInside(p: Bytes, a: Bytes, b: Bytes, t: Bytes, c: Bytes)
    ensures p + ((a + (b + t)) + c) == (p + a) + (b + (t + c))
    ensures (a + (b + t)) + c == a + (b + (t + c))
  {
  }

  lemma RegroupAfter(p: Bytes, d: Bytes, a: Bytes, b: Bytes)
    ensures p + (d + (a + b)) == ((p + d) + a) + b
  {
  }

  lemma {:induction false} FlattenSplit(pieces: seq<Bytes>, i: nat, n: nat) returns (tail: Bytes)
    requires i < n <= |pieces|
    ensures Flatten(pieces, n) == Flatten(pieces, i) + (pieces[i] + tail)
  {
    if i == n - 1 {
      tail := [];
      assert pieces[i] + [] == pieces[i];
    } else {
      var t := FlattenSplit(pieces, i, n - 1);
      tail := t + pieces[n - 1];
      RegroupInside([], Flatten(pieces, i), pieces[i], t, pieces[n - 1]);
    }
  }

  lemma {:induction false} EntriesAreEightLong(props: seq<Property>, values: seq<Bytes>, n: nat, k: nat)
    requires k <= n <= |props| == |values|
    ensures |Flatten(EntryPieces(props, values, n), k)| == 8 * k
  {
    if k > 0 {
      EntryPieceAt(props, values, k - 1, n);
      EntriesAreEightLong(props, values, n, k - 1);
    }
  }

  lemma {:induction false} EntryPieceAt(props: seq<Property>, values: seq<Bytes>, i: nat, n: nat)
    requires i < n <= |props| == |values|
    ensures EntryPieces(props, values, n)[i] == EntryOf(props[i].id, OffsetOf(values, i))
  {
    if i < n - 1 {
      EntryPieceAt(props, values, i, n - 1);
    }
  }

  lemma {:induction false} ValuePieceAt(props: seq<Property>, i: nat, n: nat)
    requires AllValid(props) && i < n <= |props|
    ensures ValuePieces(props, n)[i] == ValueOf(props[i])
  {
    if i < n - 1 {
      ValuePieceAt(props, i, n - 1);
    }
  }

  // What the reader needs to know of the octets of one value and of one directory entry.
  predicate ValueBytes(p: Property, x: Bytes) {
    && |x| >= 8
    && (p.Text? ==> Decode(x[0..4]) == VT_LPSTR && Decode(x[4..8]) == |p.payload| && x[8..|x|] == p.payload)
    && (p.Other? ==> Decode(x[0..4]) != VT_LPSTR)
  }

  predicate EntryBytes(id: nat, offset: nat, e: Bytes) {
    |e| == 8 && Decode(e[0..4]) == id && Decode(e[4..8]) == offset
  }

  lemma Halves(a: Bytes, b: Bytes)
    requires |a| == |b| == 4
    ensures (a + b)[0..4] == a && (a + b)[4..8] == b
  {
  }

  lemma EntryOfIsEntryBytes(id: nat, offset: nat)
    requires id < WORD32 && offset < WORD32
    ensures EntryBytes(id, offset, EntryOf(id, offset))
  {
    Halves(Put32(id), Put32(offset));
    Put32Decodes(id);
    Put32Decodes(offset);
  }

  lemma ThreeParts(a: Bytes, b: Bytes, c: Bytes)
    requires |a| == |b| == 4
    ensures (a + (b + c))[0..4] == a && (a + (b + c))[4..8] == b && (a + (b + c))[8..|a + (b + c)|] == c
  {
  }

  lemma ValueOfIsValueBytes(p: Property)
    requires p.Valid()
    ensures ValueBytes(p, ValueOf(p))
  {
    match p
    case Text(_, payload) =>
      ThreeParts(Put32(VT_LPSTR), Put32(|payload|), payload);
      Put32Decodes(VT_LPSTR);
      Put32Decodes(|payload|);
    case Other(_, vtype, value) =>
      ThreeParts(Put32(vtype), value[..4], value[4..]);
      assert value[..4] + value[4..] == value;
      Put32Decodes(vtype);
  }

  lemma EntryReads(data: Bytes, section: nat, before: Bytes, i: nat, p: Property, offset: nat, e: Bytes, after: Bytes,
                   beforeValue: Bytes, x: Bytes, afterValue: Bytes)
    requires EntryBytes(p.id, offset, e) && ValueBytes(p, x)
    requires |before| == section + 8 + 8 * i && data == before + (e + after)
    requires |beforeValue| == section + offset && data == beforeValue + (x + afterValue)
    ensures EntryLaidOut(data, section, i, p)
  {
    SliceInside(before, e, after, 0, 4);
    SliceInside(before, e, after, 4, 8);
    SliceInside(beforeValue, x, afterValue, 0, 4);
    SliceInside(beforeValue, x, afterValue, 4, 8);
    SliceInside(beforeValue, x, afterValue, 8, |x|);
  }

  // Entry and value inside prefix + (directory + values), cut around the two.
  lemma PlacedEntry(data: Bytes, prefix: Bytes, d: Bytes, e: Bytes, dirTail: Bytes, v: Bytes, x: Bytes, valueTail: Bytes,
                    i: nat, n: nat, p: Property, offset: nat)
    requires EntryBytes(p.id, offset, e) && ValueBytes(p, x)
    requires data == prefix + ((d + (e + dirTail)) + (v + (x + valueTail)))
    requires |prefix| >= 8 && |d| == 8 * i && |d + (e + dirTail)| == 8 * n && offset == 8 + 8 * n + |v|
    ensures EntryLaidOut(data, |prefix| - 8, i, p)
  {
    RegroupInside(prefix, d, e, dirTail, v + (x + valueTail));
    RegroupAfter(prefix, d + (e + dirTail), v, x + valueTail);
    EntryReads(data, |prefix| - 8, prefix + d, i, p, offset, e, dirTail + (v + (x + valueTail)),
               (prefix + (d + (e + dirTail))) + v, x, valueTail);
  }

  lemma {:induction false} OffsetsGrow(values: seq<Bytes>, i: nat, n: nat)
    requires i <= n <= |values|
    ensures OffsetOf(values, i) <= OffsetOf(values, n)
  {
    if i < n {
      OffsetsGrow(values, i, n - 1);
    }
  }

  lemma EncodedEntry(prefix: Bytes, props: seq<Property>, i: nat, data: Bytes)
    requires AllValid(props) && Size(props) < WORD32 && i < |props| && |prefix| >= 8
    requires data == prefix + Body(props)
    ensures EntryLaidOut(data, |prefix| - 8, i, props[i])
  {
    var n := |props|;
    var values := ValuePieces(props, n);
    var dir := EntryPieces(props, values, n);
    var offset := OffsetOf(values, i);
    var dirTail := FlattenSplit(dir, i, n);
    var valueTail := FlattenSplit(values, i, n);
    EntriesAreEightLong(props, values, n, i);
    EntriesAreEightLong(props, values, n, n);
    OffsetsGrow(values, i, n);
    EntryPieceAt(props, values, i, n);
    EntryOfIsEntryBytes(props[i].id, offset);
    ValuePieceAt(props, i, n);
    ValueOfIsValueBytes(props[i]);
    PlacedEntry(data, prefix, Flatten(dir, i), dir[i], dirTail, Flatten(values, i), values[i], valueTail,
                i, n, props[i], offset);
  }

  /** What the writer writes has the layout that the parser reads, for every header, filler, size
      field and list of properties. */
  lemma EncodeIsLaidOut(header: Bytes, filler: Bytes, size: Bytes, props: seq<Property>)
    requires |header| == 28 && |size| == 4 && AllValid(props) && props != []
    requires 32 + |filler| < WORD32 && Size(props) < WORD32
    ensures LaidOut(Encode(header, filler, size, props), props)
  {
    var data := Encode(header, filler, size, props);
    var content := Body(props);
    var section := size + (Put32(|props|) + content);
    var offset := Put32(32 + |filler|);
    FieldAt(data, header, 32 + |filler|, filler + section);
    Regroup(offset, filler, section);
    Regroup(header, offset + filler, section);
    var before := header + (offset + filler);
    Regroup(before, size, Put32(|props|) + content);
    FieldAt(data, before + size, |props|, content);
    Regroup(before + size, Put32(|props|), content);
    var prefix := (before + size) + Put32(|props|);
    forall i | 0 <= i < |props|
      ensures EntryLaidOut(data, Section(data), i, props[i])
    {
      EncodedEntry(prefix, props, i, data);
    }
  }

  lemma {:induction false} LastTextIs(props: seq<Property>, id: nat, k: nat, n: nat)
    requires k < n <= |props| && props[k].Text? && props[k].id == id && props[k].payload != []
    requires forall j | k < j < |props| :: props[j].id == id ==> props[j].Other? || props[j].payload == []
    ensures LastText(props, id, n) == TrimNul(props[k].payload)
  {
    if k < n - 1 {
      LastTextIs(props, id, k, n - 1);
    }
  }

  lemma {:induction false} TrimNulUndoesPadding(s: Bytes, padding: nat)
    requires s != [] && s[|s| - 1] != 0
    ensures TrimNul(s + seq(padding, _ => 0)) == s
  {
    var padded := s + seq(padding, _ => 0);
    if padding > 0 {
      assert padded[..|padded| - 1] == s + seq(padding - 1, _ => 0);
      TrimNulUndoesPadding(s, padding - 1);
    } else {
      assert padded == s;
    }
  }

  /** Round trip: a string s without trailing NUL, written with any NUL padding as the last text of its
      identifier among at most 64 properties in any order, is what the parser returns for it. */
  lemma ParserReadsWhatWasWritten(header: Bytes, filler: Bytes, size: Bytes, props: seq<Property>,
                                  k: nat, id: nat, s: Bytes, padding: nat)
    requires |header| == 28 && |size| == 4 && AllValid(props) && |props| <= 64
    requires 32 + |filler| < WORD32 && Size(props) < WORD32
    requires s != [] && s[|s| - 1] != 0
    requires k < |props| && props[k] == Text(id, s + seq(padding, _ => 0))
    requires forall j | k < j < |props| :: props[j].id == id ==> props[j].Other? || props[j].payload == []
    ensures Found(Encode(header, filler, size, props), id) == s
  {
    EncodeIsLaidOut(header, filler, size, props);
    ParserReadsLayout(Encode(header, filler, size, props), props, id);
    LastTextIs(props, id, k, |props|);
    TrimNulUndoesPadding(s, padding);
  }
}
