/**
 Reading the build id out of ELF notes: three little-endian words, then a name and a descriptor, each padded to four
 bytes, as the System V gABI lays notes out (chapter 5, Note Section).
 */
module Notes {
  import opened Common

  type Byte = b: nat | b < 256

  const NT_GNU_BUILD_ID := 3
  const GNU: seq<Byte> := [71, 78, 85]

  function LittleEndian(a: nat, b: nat, c: nat, d: nat): nat {
    a + 0x100 * b + 0x1_0000 * c + 0x100_0000 * d
  }

  function Word(data: seq<Byte>, off: nat): nat
    requires off + 4 <= |data|
  {
    LittleEndian(data[off], data[off + 1], data[off + 2], data[off + 3])
  }

  /** A slice that runs past the end stops at the end. */
  function Slice(data: seq<Byte>, lo: nat, hi: nat): seq<Byte>
    requires lo <= hi
  {
    data[Min(lo, |data|)..Min(hi, |data|)]
  }

  function RoundUp4(n: nat): (r: nat)
    ensures n <= r < n + 4 && r % 4 == 0
  {
    (n + 3) - (n + 3) % 4
  }

  function HexDigit(d: nat): char
    requires d < 16
  {
    if d < 10 then '0' + d as char else 'a' + (d - 10) as char
  }

  function Hex(bytes: seq<Byte>): string {
    if bytes == [] then "" else [HexDigit(bytes[0] / 16), HexDigit(bytes[0] % 16)] + Hex(bytes[1..])
  }

  /** Two digits for each byte, the high half first. */
  lemma {:induction false} HexByPosition(bytes: seq<Byte>, k: nat)
    requires k < |bytes|
    ensures |Hex(bytes)| == 2 * |bytes|
    ensures Hex(bytes)[2 * k] == "0123456789abcdef"[bytes[k] / 16]
    ensures Hex(bytes)[2 * k + 1] == "0123456789abcdef"[bytes[k] % 16]
  {
    DigitTable(bytes[0] / 16);
    DigitTable(bytes[0] % 16);
    if k > 0 {
      HexByPosition(bytes[1..], k - 1);
    } else if |bytes| > 1 {
      HexByPosition(bytes[1..], 0);
    }
  }

  lemma DigitTable(d: nat)
    requires d < 16
    ensures HexDigit(d) == "0123456789abcdef"[d]
  {
    if d < 8 {
      assert d in {0, 1, 2, 3, 4, 5, 6, 7};
    } else {
      assert d in {8, 9, 10, 11, 12, 13, 14, 15};
    }
  }

  /** What the walk reads at an offset; the padding may run past the end of the data. */
  datatype Reading = Reading(name: seq<Byte>, kind: nat, desc: seq<Byte>, next: nat)

  predicate IsBuildId(kind: nat, name: seq<Byte>) {
    kind == NT_GNU_BUILD_ID && GNU <= name
  }

  function ReadNote(data: seq<Byte>, off: nat): (note: Reading)
    requires off + 12 <= |data|
    ensures off + 12 <= note.next
  {
    var nameSize, descSize := Word(data, off), Word(data, off + 4);
    var descAt := off + 12 + RoundUp4(nameSize);
    Reading(Slice(data, off + 12, off + 12 + nameSize), Word(data, off + 8),
            Slice(data, descAt, descAt + descSize), descAt + RoundUp4(descSize))
  }

  function Rest(data: seq<Byte>, off: nat): seq<Byte> {
    data[Min(off, |data|)..]
  }

  /** The meaning of a buffer: look at its first note, then at what lies behind it. */
  function Walk(data: seq<Byte>): string
    decreases |data|
  {
    if |data| < 12 then ""
    else
      var note := ReadNote(data, 0);
      if IsBuildId(note.kind, note.name) then Hex(note.desc) else Walk(Rest(data, note.next))
  }

  lemma WordShifts(data: seq<Byte>, at: nat, off: nat)
    requires at + off + 4 <= |data|
    ensures Word(data[at..], off) == Word(data, at + off)
  {
  }

  lemma SliceShifts(data: seq<Byte>, at: nat, lo: nat, hi: nat)
    requires at <= |data| && lo <= hi
    ensures Slice(data[at..], lo, hi) == Slice(data, at + lo, at + hi)
  {
  }

  /** A note reads the same from an offset as from the front of what starts there. */
  lemma NoteShifts(data: seq<Byte>, off: nat)
    requires off + 12 <= |data|
    ensures ReadNote(data, off) == var note := ReadNote(data[off..], 0); note.(next := off + note.next)
  {
    hide Word, Slice;
    WordShifts(data, off, 0);
    WordShifts(data, off, 4);
    WordShifts(data, off, 8);
    var nameSize, descSize := Word(data, off), Word(data, off + 4);
    var descAt := 12 + RoundUp4(nameSize);
    SliceShifts(data, off, 12, 12 + nameSize);
    SliceShifts(data, off, descAt, descAt + descSize);
  }

  /** One round of the loop, wherever it stands. */
  lemma WalkStep(data: seq<Byte>, off: nat, note: Reading)
    requires off + 12 <= |data| && ReadNote(data, off) == note
    ensures Walk(Rest(data, off)) == if IsBuildId(note.kind, note.name) then Hex(note.desc) else Walk(Rest(data, note.next))
  {
    NoteShifts(data, off);
    assert Rest(data, off) == data[off..] && Rest(data[off..], note.next - off) == Rest(data, note.next);
    hide ReadNote, IsBuildId, Hex;
  }

  method ReadAt(data: seq<Byte>, at: nat) returns (kind: nat, name: seq<Byte>, desc: seq<Byte>, off: nat)
    requires at + 12 <= |data|
    ensures Reading(name, kind, desc, off) == ReadNote(data, at)
  {
    var nameSize, descSize := Word(data, at), Word(data, at + 4);
    kind, off := Word(data, at + 8), at + 12;
    name := Slice(data, off, off + nameSize);
    off := off + RoundUp4(nameSize);
    desc := Slice(data, off, off + descSize);
    off := off + RoundUp4(descSize);
  }

  method BuildId(data: seq<Byte>) returns (id: string)
    ensures id == Walk(data)
  {
    var off := 0;
    while off + 12 <= |data|
      invariant Walk(Rest(data, off)) == Walk(data)
      decreases |data| - off
    {
      var kind, name, desc, next := ReadAt(data, off);
      WalkStep(data, off, Reading(name, kind, desc, next));
      if IsBuildId(kind, name) {
        return Hex(desc);
      }
      off := next;
    }
    return "";
  }

  // ---- Well-formed notes ------------------------------------------------------------------------

  /** A note as written: the padding after name and descriptor may hold anything. */
  datatype Note = Note(name: seq<Byte>, namePad: seq<Byte>, kind: nat, desc: seq<Byte>, descPad: seq<Byte>)

  ghost predicate WellFormed(n: Note) {
    && |n.name| < 0x1_0000_0000 && |n.desc| < 0x1_0000_0000 && n.kind < 0x1_0000_0000
    && |n.name| + |n.namePad| == RoundUp4(|n.name|)
    && |n.desc| + |n.descPad| == RoundUp4(|n.desc|)
  }

  function EncodeWord(n: nat): (bytes: seq<Byte>)
    ensures |bytes| == 4
  {
    [n % 0x100, n / 0x100 % 0x100, n / 0x1_0000 % 0x100, n / 0x100_0000 % 0x100]
  }

  function Encode(n: Note): seq<Byte> {
    EncodeWord(|n.name|) + EncodeWord(|n.desc|) + EncodeWord(n.kind) + n.name + n.namePad + n.desc + n.descPad
  }

  function EncodeAll(notes: seq<Note>): seq<Byte> {
    if notes == [] then [] else Encode(notes[0]) + EncodeAll(notes[1..])
  }

  /** The descriptor of the first build-id note, in hex. */
  function FirstBuildId(notes: seq<Note>): string {
    if notes == [] then ""
    else if notes[0].kind == 3 && [71, 78, 85] <= notes[0].name then Hex(notes[0].desc)
    else FirstBuildId(notes[1..])
  }

  lemma BytesOfWord(n: nat)
    requires n < 0x1_0000_0000
    ensures n % 0x100 + 0x100 * (n / 0x100 % 0x100) + 0x1_0000 * (n / 0x1_0000 % 0x100)
            + 0x100_0000 * (n / 0x100_0000 % 0x100) == n
  {
    assert n / 0x1_0000 == n / 0x100 / 0x100;
    assert n / 0x100_0000 == n / 0x1_0000 / 0x100;
    assert n / 0x100_0000 < 0x100;
  }

  lemma EncodedWord(n: nat)
    requires n < 0x1_0000_0000
    ensures Word(EncodeWord(n), 0) == n
  {
    BytesOfWord(n);
  }

  lemma ThreeWords(first: seq<Byte>, second: seq<Byte>, third: seq<Byte>, body: seq<Byte>)
    requires |first| == |second| == |third| == 4
    ensures var data := first + second + third + body;
            Word(data, 0) == Word(first, 0) && Word(data, 4) == Word(second, 0) && Word(data, 8) == Word(third, 0)
  {
    var data := first + second + third + body;
    assert data[0..4] == first && data[4..8] == second && data[8..12] == third;
  }

  lemma HeaderRoundTrip(n: Note, rest: seq<Byte>)
    requires WellFormed(n)
    ensures var data := Encode(n) + rest;
            |data| >= 12 && Word(data, 0) == |n.name| && Word(data, 4) == |n.desc| && Word(data, 8) == n.kind
  {
    var first, second, third := EncodeWord(|n.name|), EncodeWord(|n.desc|), EncodeWord(n.kind);
    var body := n.name + n.namePad + n.desc + n.descPad + rest;
    assert Encode(n) + rest == first + second + third + body;
    EncodedWord(|n.name|);
    EncodedWord(|n.desc|);
    EncodedWord(n.kind);
    ThreeWords(first, second, third, body);
  }

  lemma PartsRoundTrip(n: Note, rest: seq<Byte>)
    requires WellFormed(n)
    ensures var data, descAt := Encode(n) + rest, 12 + RoundUp4(|n.name|);
            && Slice(data, 12, 12 + |n.name|) == n.name
            && Slice(data, descAt, descAt + |n.desc|) == n.desc
            && |Encode(n)| == descAt + RoundUp4(|n.desc|)
  {
    var data, descAt := Encode(n) + rest, 12 + RoundUp4(|n.name|);
    assert data[12..12 + |n.name|] == n.name;
    assert data[descAt..descAt + |n.desc|] == n.desc;
  }

  /** What was written is what is read: name, kind, descriptor, and where the next note starts. */
  lemma NoteRoundTrip(n: Note, rest: seq<Byte>)
    requires WellFormed(n)
    ensures |Encode(n)| >= 12
    ensures ReadNote(Encode(n) + rest, 0) == Reading(n.name, n.kind, n.desc, |Encode(n)|)
    ensures Rest(Encode(n) + rest, |Encode(n)|) == rest
  {
    HeaderRoundTrip(n, rest);
    PartsRoundTrip(n, rest);
  }

  /** On well-formed notes, and whatever fragment too short for a header follows them, the walk finds the first build id. */
  lemma {:induction false} BuildIdOfNotes(notes: seq<Note>, tail: seq<Byte>)
    requires forall n | n in notes :: WellFormed(n)
    requires |tail| < 12
    ensures Walk(EncodeAll(notes) + tail) == FirstBuildId(notes)
  {
    if notes == [] {
      assert EncodeAll(notes) + tail == tail;
    } else {
      assert EncodeAll(notes) + tail == Encode(notes[0]) + (EncodeAll(notes[1..]) + tail);
      var rest := EncodeAll(notes[1..]) + tail;
      NoteRoundTrip(notes[0], rest);
      BuildIdOfNotes(notes[1..], tail);
    }
  }

  lemma FirstNote(data: seq<Byte>) returns (note: Reading, lo: nat, hi: nat, at: nat)
    requires |data| >= 12
    ensures lo <= hi <= |data| && note.desc == data[lo..hi] && 12 <= at <= |data|
    ensures Walk(data) == if IsBuildId(note.kind, note.name) then Hex(note.desc) else Walk(data[at..])
  {
    note := ReadNote(data, 0);
    var descAt := 12 + RoundUp4(Word(data, 0));
    lo, hi := Min(descAt, |data|), Min(descAt + Word(data, 4), |data|);
    at := Min(note.next, |data|);
  }

  lemma SliceOfRest(data: seq<Byte>, at: nat, lo: nat, hi: nat)
    requires at <= |data| && lo <= hi <= |data| - at
    ensures data[at..][lo..hi] == data[at + lo..at + hi]
  {
  }

  /** On any bytes at all, the result is empty or the hex of bytes that are there. */
  lemma {:induction false} BuildIdComesFromTheData(data: seq<Byte>) returns (desc: seq<Byte>, lo: nat, hi: nat)
    ensures lo <= hi <= |data| && desc == data[lo..hi]
    ensures Walk(data) == Hex(desc)
    decreases |data|
  {
    if |data| < 12 {
      return [], 0, 0;
    }
    hide ReadNote, Walk, Hex;
    var note, at;
    note, lo, hi, at := FirstNote(data);
    desc := note.desc;
    if !IsBuildId(note.kind, note.name) {
      desc, lo, hi := BuildIdComesFromTheData(data[at..]);
      SliceOfRest(data, at, lo, hi);
      lo, hi := at + lo, at + hi;
    }
  }

  /** Two descriptors with the same hex are the same. */
  lemma {:induction false} HexInjective(a: seq<Byte>, b: seq<Byte>)
    requires Hex(a) == Hex(b)
    ensures a == b
    decreases |a|
  {
    HexLength(a);
    HexLength(b);
    if a != [] {
      assert Hex(a)[0] == Hex(b)[0] && Hex(a)[1] == Hex(b)[1];
      assert Hex(a)[2..] == Hex(a[1..]) && Hex(b)[2..] == Hex(b[1..]);
      HexInjective(a[1..], b[1..]);
      assert a == [a[0]] + a[1..] && b == [b[0]] + b[1..];
    }
  }

  lemma {:induction false} HexLength(a: seq<Byte>)
    ensures |Hex(a)| == 2 * |a|
  {
    if a != [] {
      HexLength(a[1..]);
    }
  }
}
