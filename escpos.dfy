/**
 * The ESC/POS byte stream of one thermal label (`escpos_bytes_for_label`),
 * and a reader that takes such a stream apart again.
 */
module EscPos {
  import opened Wrappers
  import opened Utf8
  import opened PyText

  const ESC: byte := 0x1B
  const GS: byte := 0x1D
  const LF: byte := 0x0A

  /** `ESC @`: initialise the printer. */
  const Reset: seq<byte> := [ESC, 0x40]
  /** `GS ! 0x11`: double width and double height. */
  const DoubleSize: seq<byte> := [GS, 0x21, 0x11]
  /** `GS ! 0x00`: normal character size. */
  const NormalSize: seq<byte> := [GS, 0x21, 0x00]
  /** `GS V 0x00`: full paper cut. */
  const Cut: seq<byte> := [GS, 0x56, 0x00]
  /** Two empty lines and the cut, the fixed end of every label. */
  const Trailer: seq<byte> := [LF, LF] + Cut

  /** The third line of a thermal label: `BOX: #i/N` and a line break,
      which is its only line break. */
  function BoxLine(boxIndex: int, boxTotal: int): (r: string)
    ensures |r| > 8 && r[..6] == "BOX: #" && r[|r| - 1] == '\n'
    ensures forall k :: 0 <= k < |r| - 1 ==> r[k] != '\n'
  {
    "BOX: #" + IntToString(boxIndex) + "/" + IntToString(boxTotal) + "\n"
  }

  /** The fixed frame of a label around its three encoded text lines. */
  function Frame(o: seq<byte>, c: seq<byte>, box: seq<byte>): (r: seq<byte>)
    ensures |r| == |o| + |c| + |box| + 15
    ensures r[..2] == Reset
    ensures r[|r| - 5..] == Trailer
  {
    var b := Reset;
    var b := b + DoubleSize + o + [LF];
    var b := b + NormalSize + c + [LF];
    var b := b + box;
    b + [LF, LF] + Cut
  }

  /** The bytes of copy `boxIndex` of `boxTotal`; `enc` encodes text and is
      total (main.py encodes with `errors='replace'`). */
  function LabelBytes(enc: string -> seq<byte>, orderId: string, customer: string,
                      boxIndex: int, boxTotal: int): (r: seq<byte>)
    ensures |r| == |enc(orderId)| + |enc(customer)| + |enc(BoxLine(boxIndex, boxTotal))| + 15
    ensures r[..2] == Reset
    ensures r[|r| - 5..] == Trailer
  {
    Frame(enc(orderId), enc(customer), enc(BoxLine(boxIndex, boxTotal)))
  }

  /** Where each part of a label sits in its byte stream. */
  lemma FrameLayout(o: seq<byte>, c: seq<byte>, box: seq<byte>)
    ensures var r := Frame(o, c, box);
            && r[2..5] == DoubleSize
            && r[5..5 + |o|] == o
            && r[5 + |o|] == LF
            && r[6 + |o|..9 + |o|] == NormalSize
            && r[9 + |o|..9 + |o| + |c|] == c
            && r[9 + |o| + |c|] == LF
            && r[10 + |o| + |c|..10 + |o| + |c| + |box|] == box
  {
    var b1 := Reset + DoubleSize + o + [LF];
    var b2 := b1 + NormalSize + c + [LF];
    var b3 := b2 + box;
    var r := b3 + [LF, LF] + Cut;
    assert r == Frame(o, c, box);
    PrefixSlices(r, b3, 10 + |o| + |c|, 10 + |o| + |c| + |box|);
    PrefixSlices(r, b3, 0, |b2|);
    PrefixSlices(r, b2, 6 + |o|, 9 + |o|);
    PrefixSlices(r, b2, 9 + |o|, 9 + |o| + |c|);
    PrefixSlices(r, b2, 9 + |o| + |c|, 10 + |o| + |c|);
    PrefixSlices(r, b2, 0, |b1|);
    PrefixSlices(r, b1, 2, 5);
    PrefixSlices(r, b1, 5, 5 + |o|);
    PrefixSlices(r, b1, 5 + |o|, 6 + |o|);
  }

  /** A slice that lies within a prefix of `s` is that slice of the prefix. */
  lemma PrefixSlices(s: seq<byte>, p: seq<byte>, i: nat, j: nat)
    requires |p| <= |s| && s[..|p|] == p && i <= j <= |p|
    ensures s[i..j] == p[i..j]
  {
    assert forall k :: i <= k < j ==> s[k] == s[..|p|][k];
  }

  /** A label opens with the reset and double-size commands, directly
      followed by the encoded order id. */
  lemma LabelStartsWithOrder(enc: string -> seq<byte>, orderId: string, customer: string,
                             boxIndex: int, boxTotal: int)
    ensures var r := LabelBytes(enc, orderId, customer, boxIndex, boxTotal);
            r[..5 + |enc(orderId)|] == Reset + DoubleSize + enc(orderId)
  {
    FrameLayout(enc(orderId), enc(customer), enc(BoxLine(boxIndex, boxTotal)));
  }

  /** The first position at or after `from` that holds `x`, or `|s|`. */
  function FindFirst<T(==)>(s: seq<T>, x: T, from: nat): (k: nat)
    requires from <= |s|
    ensures from <= k <= |s|
    ensures k < |s| ==> s[k] == x
    ensures forall j :: from <= j < k ==> s[j] != x
    decreases |s| - from
  {
    if from == |s| || s[from] == x then from else FindFirst(s, x, from + 1)
  }

  /** `FindFirst` stops at the first `x` at or after `from`. */
  lemma {:induction false} FindFirstAt<T>(s: seq<T>, x: T, from: nat, k: nat)
    requires from <= k < |s| && s[k] == x
    requires forall j :: from <= j < k ==> s[j] != x
    ensures FindFirst(s, x, from) == k
    decreases k - from
  {
    if from < k {
      FindFirstAt(s, x, from + 1, k);
    }
  }

  /** The three encoded text fields of a label stream. */
  datatype Fields = Fields(orderId: seq<byte>, customer: seq<byte>, boxLine: seq<byte>)

  /** Splits a label stream at its fixed commands: the order id runs to the
      first line feed after the size command, the customer to the next one,
      and the box line to the trailer. */
  function Split(bs: seq<byte>): Option<Fields> {
    if |bs| < 15 || bs[..5] != Reset + DoubleSize || bs[|bs| - 5..] != Trailer then None
    else
      var i := FindFirst(bs, LF, 5);
      if i + 4 > |bs| - 5 || bs[i + 1..i + 4] != NormalSize then None
      else
        var j := FindFirst(bs, LF, i + 4);
        if j + 1 > |bs| - 5 then None
        else Some(Fields(bs[5..i], bs[i + 4..j], bs[j + 1..|bs| - 5]))
  }

  predicate NoLineFeed(bs: seq<byte>) {
    forall k :: 0 <= k < |bs| ==> bs[k] != LF
  }

  /** A frame whose first two text lines hold no line feed splits back into
      exactly its three lines. */
  lemma SplitFrame(o: seq<byte>, c: seq<byte>, box: seq<byte>)
    requires NoLineFeed(o) && NoLineFeed(c)
    ensures Split(Frame(o, c, box)) == Some(Fields(o, c, box))
  {
    FrameLayout(o, c, box);
    SplitLaidOut(Frame(o, c, box), o, c, box);
  }

  /** `Split` only looks at the fixed commands and the line feeds, so any
      stream laid out like a frame splits into its three lines. */
  lemma SplitLaidOut(r: seq<byte>, o: seq<byte>, c: seq<byte>, box: seq<byte>)
    requires NoLineFeed(o) && NoLineFeed(c)
    requires |r| == |o| + |c| + |box| + 15
    requires r[..2] == Reset && r[2..5] == DoubleSize && r[|r| - 5..] == Trailer
    requires r[5..5 + |o|] == o && r[5 + |o|] == LF && r[6 + |o|..9 + |o|] == NormalSize
    requires r[9 + |o|..9 + |o| + |c|] == c && r[9 + |o| + |c|] == LF
    requires r[10 + |o| + |c|..10 + |o| + |c| + |box|] == box
    ensures Split(r) == Some(Fields(o, c, box))
  {
    assert r[..5] == Reset + DoubleSize by {
      assert r[..5] == r[..2] + r[2..5];
    }
    var i := 5 + |o|;
    assert forall j :: 5 <= j < i ==> r[j] == o[j - 5] by {
      assert forall j :: 5 <= j < i ==> r[j] == r[5..i][j - 5];
    }
    FindFirstAt(r, LF, 5, i);
    assert r[i + 1..i + 4] == NormalSize;
    var j := 9 + |o| + |c|;
    assert forall k :: i + 4 <= k < j ==> r[k] == c[k - i - 4] by {
      assert forall k :: i + 4 <= k < j ==> r[k] == r[i + 4..j][k - i - 4];
    }
    FindFirstAt(r, LF, i + 4, j);
    assert r[j + 1..|r| - 5] == box;
  }

  /** A label whose encoded order id and customer hold no line feed splits
      back into exactly the three encoded fields. */
  lemma SplitLabelBytes(enc: string -> seq<byte>, orderId: string, customer: string, boxIndex: int, boxTotal: int)
    requires NoLineFeed(enc(orderId)) && NoLineFeed(enc(customer))
    ensures Split(LabelBytes(enc, orderId, customer, boxIndex, boxTotal))
            == Some(Fields(enc(orderId), enc(customer), enc(BoxLine(boxIndex, boxTotal))))
  {
    SplitFrame(enc(orderId), enc(customer), enc(BoxLine(boxIndex, boxTotal)));
  }

  /** Reads `BOX: #i/N` and a line break back into `(i, N)`. */
  function ParseBoxLine(s: string): Option<(int, int)> {
    if |s| < 7 || s[..6] != "BOX: #" || s[|s| - 1] != '\n' then None
    else
      var mid := s[6..|s| - 1];
      var k := FindFirst(mid, '/', 0);
      if k == |mid| then None
      else
        match (ParseTrimmed(mid[..k]), ParseTrimmed(mid[k + 1..]))
        case (Some(a), Some(b)) => Some((a, b))
        case _ => None
  }

  /** The box line reads back as the numbers it was made from. */
  lemma ParseBoxLineOfBoxLine(boxIndex: int, boxTotal: int)
    ensures ParseBoxLine(BoxLine(boxIndex, boxTotal)) == Some((boxIndex, boxTotal))
  {
    var a, b := IntToString(boxIndex), IntToString(boxTotal);
    ParseTrimmedOfIntToString(boxIndex);
    ParseTrimmedOfIntToString(boxTotal);
    assert BoxLine(boxIndex, boxTotal) == "BOX: #" + (a + "/" + b) + "\n";
    ParseBoxLineOf(a, b, boxIndex, boxTotal);
  }

  /** A box line built from two texts that read as `i` and `n`, the first
      without a slash, reads back as `(i, n)`. */
  lemma ParseBoxLineOf(a: string, b: string, i: int, n: int)
    requires forall k :: 0 <= k < |a| ==> a[k] != '/'
    requires ParseTrimmed(a) == Some(i) && ParseTrimmed(b) == Some(n)
    ensures ParseBoxLine("BOX: #" + (a + "/" + b) + "\n") == Some((i, n))
  {
    var mid := a + "/" + b;
    Enclosed("BOX: #", mid, "\n");
    FindSlashAfter(a, b);
    assert mid[..|a|] == a && mid[|a| + 1..] == b;
  }

  /** The three parts of `p + m + q` can be sliced back out. */
  lemma Enclosed(p: string, m: string, q: string)
    ensures (p + m + q)[..|p|] == p
    ensures (p + m + q)[|p|..|p| + |m|] == m
    ensures (p + m + q)[|p| + |m|..] == q
  {
  }

  lemma FindSlashAfter(a: string, b: string)
    requires forall k :: 0 <= k < |a| ==> a[k] != '/'
    ensures FindFirst(a + "/" + b, '/', 0) == |a|
  {
    var mid := a + "/" + b;
    assert mid[|a|] == '/';
    assert forall k :: 0 <= k < |a| ==> mid[k] == a[k];
    FindFirstAt(mid, '/', 0, |a|);
  }

  /** `str(n)` is digits after an optional minus sign, so it holds no '/'
      and `int()` reads it back without stripping anything. */
  lemma ParseTrimmedOfIntToString(n: int)
    ensures forall k :: 0 <= k < |IntToString(n)| ==> IntToString(n)[k] != '/'
    ensures ParseTrimmed(IntToString(n)) == Some(n)
  {
    var s := IntToString(n);
    var ds := NatToString(if n < 0 then -n else n);
    ParseIntToString(n);
    if n < 0 {
      assert forall k :: 0 < k < |s| ==> s[k] == ds[k - 1];
    }
  }

  /** The fields of a label printed with UTF-8, read back from its bytes:
      `(order id, customer, box index, box total)`. */
  function DecodeLabel(bs: seq<byte>): Option<(string, string, int, int)> {
    match Split(bs)
    case None => None
    case Some(f) =>
      match (Decode(f.orderId), Decode(f.customer), Decode(f.boxLine))
      case (Some(o), Some(c), Some(line)) =>
        (match ParseBoxLine(line)
         case Some((i, n)) => Some((o, c, i, n))
         case None => None)
      case _ => None
  }

  /** A UTF-8 label loses nothing: as long as the order id and customer hold
      no line break, every field can be read back from the bytes. */
  lemma DecodeLabelBytes(orderId: string, customer: string, boxIndex: int, boxTotal: int)
    requires forall k :: 0 <= k < |orderId| ==> orderId[k] != '\n'
    requires forall k :: 0 <= k < |customer| ==> customer[k] != '\n'
    ensures DecodeLabel(LabelBytes(Encode, orderId, customer, boxIndex, boxTotal))
            == Some((orderId, customer, boxIndex, boxTotal))
  {
    EncodeAvoidsAscii(orderId, '\n');
    EncodeAvoidsAscii(customer, '\n');
    SplitLabelBytes(Encode, orderId, customer, boxIndex, boxTotal);
    DecodeEncode(orderId);
    DecodeEncode(customer);
    DecodeEncode(BoxLine(boxIndex, boxTotal));
    ParseBoxLineOfBoxLine(boxIndex, boxTotal);
  }
}
