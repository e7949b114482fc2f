/** The packed word buffers the engine takes and gives: `dsx_id` lists, phrases and mimic buffers. */
module Packing {
  import opened Bytes

  /** `sizeof(dsx_id)`: a four-byte size and a four-byte id in front of the name. */
  const ENTRY_HEADER: nat := 8

  /** The `align4` macro: the least multiple of four that leaves room for a terminating NUL. */
  function Align4(len: nat): (r: nat)
    ensures len < r <= len + 4 && r % 4 == 0
  {
    (len + 4) - (len + 4) % 4
  }

  function EntrySize(w: CStr): nat {
    ENTRY_HEADER + Align4(|w|)
  }

  /** One `dsx_id`: its own size, an id of zero, the name, and NULs up to the next multiple of four. */
  function Entry(w: CStr): (e: seq<byte>)
    ensures |e| == EntrySize(w)
  {
    LE(EntrySize(w), 4) + Zeros(4) + w + Zeros(Align4(|w|) - |w|)
  }

  function Pack(words: seq<CStr>): seq<byte> {
    Concat(Entry, words)
  }

  // -- set_list's two passes -----------------------------------------------------------------------

  lemma AddWraps(a: nat, b: nat)
    ensures (a % TWO32 + b) % TWO32 == (a + b) % TWO32
  {
  }

  /** The sizing pass. `dataptr.size` is a `uint32_t`, so the sum wraps. */
  method SizePass(words: seq<CStr>) returns (size: nat)
    ensures size == |Pack(words)| % TWO32
  {
    size := 0;
    for i := 0 to |words|
      invariant size == |Pack(words[..i])| % TWO32
    {
      ConcatNext(Entry, words, i);
      AddWraps(|Pack(words[..i])|, EntrySize(words[i]));
      size := (size + ENTRY_HEADER + Align4(|words[i]|)) % TWO32;
    }
    assert words[..|words|] == words;
  }

  method WriteEntry(data: array<byte>, ghost used: seq<byte>, pos: nat, w: CStr) returns (next: nat)
    requires pos == |used| && pos + EntrySize(w) <= data.Length
    requires data[..] == used + Zeros(data.Length - pos)
    modifies data
    ensures next == pos + EntrySize(w)
    ensures data[..] == used + Entry(w) + Zeros(data.Length - next)
  {
    hide LE, Align4;
    ghost var n, size := data.Length - pos, LE(EntrySize(w), 4);
    next := pos + EntrySize(w);
    Memcpy(data, pos, LE(EntrySize(w), 4));
    Overwrite(used, n, size);
    ZerosSplit(4, n - 8);
    ghost var head := used + size + Zeros(4);
    assert data[..] == head + Zeros(n - 8);
    Memcpy(data, pos + ENTRY_HEADER, w);
    Overwrite(head, n - 8, w);
    ZerosSplit(Align4(|w|) - |w|, data.Length - next);
    assert head + w + Zeros(Align4(|w|) - |w|) == used + Entry(w);
  }

  /** The filling pass, over a zeroed buffer of exactly the computed size: every write is inside it. */
  method FillPass(words: seq<CStr>, data: array<byte>)
    requires data[..] == Zeros(|Pack(words)|)
    modifies data
    ensures data[..] == Pack(words)
  {
    hide Entry, Align4;
    var pos := 0;
    for i := 0 to |words|
      invariant pos == |Pack(words[..i])| <= data.Length == |Pack(words)|
      invariant data[..] == Pack(words[..i]) + Zeros(data.Length - pos)
    {
      ConcatNext(Entry, words, i);
      pos := WriteEntry(data, Pack(words[..i]), pos, words[i]);
    }
    assert words[..|words|] == words;
  }

  /** What `set_list` hands to the engine for one enumeration of the list. */
  method BuildDataptr(words: seq<CStr>) returns (data: array<byte>)
    requires |Pack(words)| < TWO32
    ensures fresh(data) && data[..] == Pack(words)
  {
    var size := SizePass(words);
    data := new byte[size](_ => 0);
    assert data[..] == Zeros(|Pack(words)|);
    FillPass(words, data);
  }

  // -- the walk of phrase_to_bson ------------------------------------------------------------------

  /**
   * The names of the entries from `pos` up to `end`, each step as long as the entry says it is.
   * None exactly when the loop would read outside the buffer or never move on.
   */
  function Walk(buf: seq<byte>, pos: nat, end: nat): Option<seq<CStr>>
    decreases end - pos
  {
    if pos >= end then Some([])
    else if pos + ENTRY_HEADER > |buf| then None
    else
      var size := FromLE(buf[pos..pos + 4]);
      var name := StrAt(buf, pos + ENTRY_HEADER);
      if size == 0 || name.None? then None
      else match Walk(buf, pos + size, end)
        case None => None
        case Some(rest) => Some([name.value] + rest)
  }

  method PhraseToBson(phrase: array<byte>) returns (words: seq<CStr>)
    requires phrase.Length >= 4
    requires Walk(phrase[..], 4, FromLE(phrase[..4])).Some?
    ensures words == Walk(phrase[..], 4, FromLE(phrase[..4])).value
  {
    var end := FromLE(phrase[..4]);
    var pos := 4;
    words := [];
    ghost var whole := Walk(phrase[..], 4, end).value;
    while pos < end
      invariant Walk(phrase[..], pos, end).Some?
      invariant whole == words + Walk(phrase[..], pos, end).value
      decreases end - pos
    {
      var name := StrAt(phrase[..], pos + ENTRY_HEADER);
      words := words + [name.value];
      assert phrase[pos..pos + 4] == phrase[..][pos..pos + 4];
      pos := pos + FromLE(phrase[pos..pos + 4]);
    }
  }

  /** Every entry is a multiple of four long, tells its own size, holds its word, and terminates it. */
  lemma EntryShape(w: CStr)
    ensures |Entry(w)| % 4 == 0
    ensures Entry(w)[..4] == LE(|Entry(w)|, 4) && Entry(w)[4..8] == [0, 0, 0, 0]
    ensures Entry(w)[8..8 + |w|] == w
    ensures forall i :: 8 + |w| <= i < |Entry(w)| ==> Entry(w)[i] == 0
    ensures 8 + |w| < |Entry(w)|
  {
    hide LE, Align4;
    var e := Entry(w);
    assert e == (LE(EntrySize(w), 4) + Zeros(4)) + (w + Zeros(Align4(|w|) - |w|));
  }

  lemma WalkEntry(buf: seq<byte>, pos: nat, end: nat, w: CStr)
    requires pos < end && pos + EntrySize(w) <= |buf| && EntrySize(w) < TWO32
    requires buf[pos..pos + EntrySize(w)] == Entry(w)
    requires Walk(buf, pos + EntrySize(w), end).Some?
    ensures Walk(buf, pos, end) == Some([w] + Walk(buf, pos + EntrySize(w), end).value)
  {
    hide LE, FromLE, Align4, Entry;
    var e := buf[pos..pos + EntrySize(w)];
    EntryShape(w);
    SliceOfSlice(buf, pos, pos + EntrySize(w), 0, 4);
    SliceOfSlice(buf, pos, pos + EntrySize(w), 8, 8 + |w|);
    Pow256Values();
    LERoundTrip(EntrySize(w), 4);
    assert buf[pos + 8 + |w|] == e[8 + |w|];
    StrAtFinds(buf, pos + 8, w);
  }

  /** The walk recovers exactly the packed words, in order, wherever in a buffer they lie. */
  lemma {:induction false} WalkPacked(buf: seq<byte>, pos: nat, words: seq<CStr>)
    requires |Pack(words)| < TWO32
    requires pos + |Pack(words)| <= |buf| && buf[pos..pos + |Pack(words)|] == Pack(words)
    ensures Walk(buf, pos, pos + |Pack(words)|) == Some(words)
    decreases |words|
  {
    if words != [] {
      var w, rest := words[0], Pack(words[1..]);
      assert Pack(words) == Entry(words[0]) + rest;
      Cut(Entry(words[0]), rest);
      assert buf[pos..pos + EntrySize(w)] == buf[pos..pos + |Pack(words)|][..EntrySize(w)];
      assert buf[pos + EntrySize(w)..pos + |Pack(words)|] == buf[pos..pos + |Pack(words)|][EntrySize(w)..];
      WalkPacked(buf, pos + EntrySize(w), words[1..]);
      WalkEntry(buf, pos, pos + |Pack(words)|, w);
      assert words == [w] + words[1..];
    }
  }

  /** What the engine reads back from the bytes of one list. */
  function Unpack(bytes: seq<byte>): Option<seq<CStr>> {
    Walk(bytes, 0, |bytes|)
  }

  lemma UnpackPack(words: seq<CStr>)
    requires |Pack(words)| < TWO32
    ensures Unpack(Pack(words)) == Some(words)
  {
    assert Pack(words)[0..|Pack(words)|] == Pack(words);
    WalkPacked(Pack(words), 0, words);
  }

  /** A phrase as the engine lays it out: its whole length, then the entries. */
  function Phrase(words: seq<CStr>): seq<byte> {
    LE(4 + |Pack(words)|, 4) + Pack(words)
  }

  lemma PhraseRoundTrip(words: seq<CStr>)
    requires 4 + |Pack(words)| < TWO32
    ensures FromLE(Phrase(words)[..4]) == |Phrase(words)|
    ensures Walk(Phrase(words), 4, FromLE(Phrase(words)[..4])) == Some(words)
  {
    Pow256Values();
    LERoundTrip(4 + |Pack(words)|, 4);
    assert Phrase(words)[..4] == LE(4 + |Pack(words)|, 4);
    WalkPacked(Phrase(words), 4, words);
  }

  // -- the mimic buffer ----------------------------------------------------------------------------

  function MimicEntry(w: seq<byte>): seq<byte> {
    w + [0]
  }

  function MimicBuffer(words: seq<seq<byte>>): seq<byte> {
    Concat(MimicEntry, words)
  }

  method MimicSize(words: seq<seq<byte>>) returns (size: nat)
    requires |MimicBuffer(words)| < TWO32
    ensures size == |MimicBuffer(words)|
  {
    size := 0;
    for i := 0 to |words|
      invariant size == |MimicBuffer(words[..i])|
    {
      ConcatNext(MimicEntry, words, i);
      size := (size + |words[i]| + 1) % TWO32;
    }
    assert words[..|words|] == words;
  }

  /** The sizing and the filling pass of the mimic command; words may hold NULs, their lengths come from BSON. */
  method BuildMimic(words: seq<seq<byte>>) returns (data: array<byte>, count: nat)
    requires |MimicBuffer(words)| < TWO32
    ensures fresh(data) && data[..] == MimicBuffer(words) && count == |words|
  {
    var size := MimicSize(words);
    data := new byte[size](_ => 0);
    var pos := 0;
    count := 0;
    for i := 0 to |words|
      invariant count == i
      invariant pos == |MimicBuffer(words[..i])| <= data.Length == |MimicBuffer(words)|
      invariant data[..] == MimicBuffer(words[..i]) + Zeros(data.Length - pos)
    {
      ConcatNext(MimicEntry, words, i);
      ghost var used, n := MimicBuffer(words[..i]), data.Length - pos;
      Memcpy(data, pos, words[i]);
      Overwrite(used, n, words[i]);
      ZerosSplit(1, n - |words[i]| - 1);
      assert used + words[i] + [0] == used + (words[i] + [0]);
      pos := pos + |words[i]| + 1;
      count := count + 1;
    }
    assert words[..|words|] == words;
  }

  /** `n` C strings read one after the other. */
  function ReadStrings(buf: seq<byte>, pos: nat, n: nat): Option<seq<CStr>>
    decreases n
  {
    if n == 0 then Some([])
    else match StrAt(buf, pos)
      case None => None
      case Some(s) =>
        match ReadStrings(buf, pos + |s| + 1, n - 1)
        case None => None
        case Some(rest) => Some([s] + rest)
  }

  /** The buffer splits back into its words exactly when no word holds a NUL. */
  lemma MimicRoundTrip(words: seq<seq<byte>>)
    ensures ReadStrings(MimicBuffer(words), 0, |words|) == Some(words) <==> (forall w :: w in words ==> NulFree(w))
  {
    MimicSplits([], words);
    assert [] + MimicBuffer(words) == MimicBuffer(words);
  }

  lemma {:induction false} MimicSplits(pre: seq<byte>, words: seq<seq<byte>>)
    ensures ReadStrings(pre + MimicBuffer(words), |pre|, |words|) == Some(words)
            <==> (forall w :: w in words ==> NulFree(w))
    decreases |words|
  {
    if words != [] {
      var w := words[0];
      var buf := pre + MimicBuffer(words);
      assert buf == (pre + w + [0]) + MimicBuffer(words[1..]);
      MimicSplits(pre + w + [0], words[1..]);
      if NulFree(w) {
        assert buf[|pre|..|pre| + |w|] == w && buf[|pre| + |w|] == 0;
        StrAtFinds(buf, |pre|, w);
        assert words == [w] + words[1..];
        assert (forall v :: v in words ==> NulFree(v)) <==> (forall v :: v in words[1..] ==> NulFree(v));
      } else {
        assert w in words;
        var r := ReadStrings(buf, |pre|, |words|);
        assert r.Some? ==> NulFree(r.value[0]);
      }
    }
  }
}
