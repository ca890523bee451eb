/**
 * The names of dns/DNSResolver.cpp in DNS messages (sections 3.1 and 4.1.4 of RFC 1035): packing a host name into a
 * query, and reading a name, with its compression pointers, from a message.
 */
module DnsNames {
  import opened Basics

  const DOT: Byte := 46
  const DNS_MESSAGE_LIMIT: nat := 512
  const DNS_DOMAIN_NAME_LIMIT: nat := 255

  // ---------------------------------------------------------------- names as labels

  /** How far s runs without a dot. */
  function LabelLength(s: seq<Byte>): (n: nat)
    ensures n <= |s| && DOT !in s[..n] && (n < |s| ==> s[n] == DOT)
  {
    if s == [] || s[0] == DOT then 0 else 1 + LabelLength(s[1..])
  }

  /** What strtok makes of a name with "." as the delimiter: empty labels are skipped. */
  function Labels(s: seq<Byte>): (ls: seq<seq<Byte>>)
    ensures forall i :: 0 <= i < |ls| ==> 0 < |ls[i]| <= |s| && DOT !in ls[i]
    decreases |s|
  {
    if s == [] then []
    else if s[0] == DOT then Labels(s[1..])
    else [s[..LabelLength(s)]] + Labels(s[LabelLength(s)..])
  }

  /** Every label followed by a dot. */
  function Dots(ls: seq<seq<Byte>>): seq<Byte> {
    if ls == [] then [] else ls[0] + [DOT] + Dots(ls[1..])
  }

  /** A name without empty labels. */
  predicate Normal(s: seq<Byte>) {
    s != [] && s[0] != DOT && s[|s| - 1] != DOT && forall i :: 0 < i < |s| ==> s[i - 1] != DOT || s[i] != DOT
  }

  lemma NormalRest(s: seq<Byte>, n: nat)
    requires Normal(s) && n < |s| && s[n] == DOT
    ensures n + 1 < |s| && Normal(s[n + 1..])
  {
    var rest := s[n + 1..];
    assert forall i :: 0 <= i < |rest| ==> rest[i] == s[i + n + 1];
    assert s[n] == DOT ==> s[n + 1] != DOT;
  }

  lemma LabelsStep(s: seq<Byte>)
    requires s != [] && s[0] != DOT
    ensures var n := LabelLength(s);
            Labels(s) == [s[..n]] + if n == |s| then [] else Labels(s[n + 1..])
  {
    var n := LabelLength(s);
    if n < |s| {
      assert s[n..][0] == DOT && s[n..][1..] == s[n + 1..];
    }
  }

  lemma {:induction false} NormalDots(s: seq<Byte>)
    requires Normal(s)
    ensures Dots(Labels(s)) == s + [DOT]
    decreases |s|
  {
    hide Labels, LabelLength, Normal;
    var n := LabelLength(s);
    NormalFirst(s);
    LabelsStep(s);
    if n == |s| {
      assert s[..n] == s;
    } else {
      NormalRest(s, n);
      NormalDots(s[n + 1..]);
      assert ([s[..n]] + Labels(s[n + 1..]))[1..] == Labels(s[n + 1..]);
      assert s + [DOT] == s[..n] + [DOT] + (s[n + 1..] + [DOT]);
    }
  }

  lemma NormalFirst(s: seq<Byte>)
    requires Normal(s)
    ensures s != [] && s[0] != DOT
  {
  }

  /** The labels of anything, joined, make a name without empty labels. */
  lemma {:induction false} DotsNormal(ls: seq<seq<Byte>>) returns (t: seq<Byte>)
    requires ls != [] && forall i :: 0 <= i < |ls| ==> 0 < |ls[i]| && DOT !in ls[i]
    ensures Normal(t) && Dots(ls) == t + [DOT]
  {
    if |ls| == 1 {
      t := ls[0];
      assert ls[1..] == [];
    } else {
      var rest := DotsNormal(ls[1..]);
      t := ls[0] + [DOT] + rest;
      assert forall i :: 0 <= i < |ls[0]| ==> t[i] == ls[0][i];
    }
  }

  /** The labels joined are the name and a dot exactly when the name has no empty labels. */
  lemma DotsIffNormal(s: seq<Byte>)
    ensures Dots(Labels(s)) == s + [DOT] <==> Normal(s)
  {
    hide Labels;
    if Normal(s) {
      NormalDots(s);
    } else if Labels(s) != [] {
      var t := DotsNormal(Labels(s));
      assert s == (s + [DOT])[..|s|] && t == (t + [DOT])[..|t|];
    }
  }

  // ---------------------------------------------------------------- names in a message

  /** A label after its length, as one byte. */
  function Packed(lab: seq<Byte>): (s: seq<Byte>)
    ensures |s| == 1 + |lab|
  {
    [|lab| % 256] + lab
  }

  predicate Short(ls: seq<seq<Byte>>) {
    forall i :: 0 <= i < |ls| ==> 0 < |ls[i]| < 256
  }

  /** The labels with their lengths, and the zero that ends the name. */
  function Encoded(ls: seq<seq<Byte>>): (s: seq<Byte>)
    ensures s != []
  {
    if ls == [] then [0] else Packed(ls[0]) + Encoded(ls[1..])
  }

  /** startWithLabel, of a length that is not zero: any of the low six bits is set. */
  predicate StartsLabel(b: Byte) {
    b as int % 64 != 0
  }

  /** Where the labels from p on end, if that is inside the message. */
  function LabelsEnd(msg: seq<Byte>, p: nat): (e: Option<nat>)
    ensures e.Some? ==> p <= e.value < |msg| && !StartsLabel(msg[e.value])
    decreases |msg| - p
  {
    if p >= |msg| then None
    else if StartsLabel(msg[p]) then (if p + 1 + msg[p] > |msg| then None else LabelsEnd(msg, p + 1 + msg[p]))
    else Some(p)
  }

  /** The labels from p up to where they end. */
  function LabelsFrom(msg: seq<Byte>, p: nat): (ls: seq<seq<Byte>>)
    requires LabelsEnd(msg, p).Some?
    decreases |msg| - p
  {
    if StartsLabel(msg[p]) then [msg[p + 1..p + 1 + msg[p]]] + LabelsFrom(msg, p + 1 + msg[p]) else []
  }

  /**
   * A name that resolveRRName can read on from p: its labels end inside the message, at a zero or at a pointer to
   * before its start.
   */
  predicate ReadableFrom(msg: seq<Byte>, p: nat, start: nat)
    decreases start
  {
    var e := LabelsEnd(msg, p);
    e.Some? && (msg[e.value] != 0 ==>
                  e.value + 1 < |msg| && msg[e.value + 1] < start &&
                    ReadableFrom(msg, msg[e.value + 1], msg[e.value + 1]))
  }

  /** The name resolveRRName reads from p on. */
  function NameFrom(msg: seq<Byte>, p: nat, start: nat): (ls: seq<seq<Byte>>)
    requires ReadableFrom(msg, p, start)
    decreases start
  {
    var e := LabelsEnd(msg, p).value;
    LabelsFrom(msg, p) + if msg[e] == 0 then [] else NameFrom(msg, msg[e + 1], msg[e + 1])
  }

  predicate Readable(msg: seq<Byte>, start: nat) {
    ReadableFrom(msg, start, start)
  }

  function NameAt(msg: seq<Byte>, start: nat): (ls: seq<seq<Byte>>)
    requires Readable(msg, start)
  {
    NameFrom(msg, start, start)
  }

  /** The bytes it consumes: up to and with the zero, or the pointer. */
  function SizeAt(msg: seq<Byte>, start: nat): nat
    requires Readable(msg, start)
  {
    var e := LabelsEnd(msg, start).value;
    e - start + if msg[e] == 0 then 1 else 2
  }

  lemma {:induction false} DotsAppend(a: seq<seq<Byte>>, b: seq<seq<Byte>>)
    ensures Dots(a + b) == Dots(a) + Dots(b)
  {
    if a == [] {
      assert a + b == b;
    } else {
      assert (a + b)[1..] == a[1..] + b;
      DotsAppend(a[1..], b);
    }
  }

  /** One label further. */
  lemma LabelStep(msg: seq<Byte>, p: nat)
    requires LabelsEnd(msg, p).Some? && StartsLabel(msg[p])
    ensures var q := p + 1 + msg[p];
            q <= |msg| && LabelsEnd(msg, q) == LabelsEnd(msg, p) &&
            Dots(LabelsFrom(msg, p)) == msg[p + 1..q] + [DOT] + Dots(LabelsFrom(msg, q))
  {
    var lab := msg[p + 1..p + 1 + msg[p]];
    var rest := LabelsFrom(msg, p + 1 + msg[p]);
    assert ([lab] + rest)[1..] == rest;
  }

  /** The dotted name in its two parts. */
  lemma NameSplit(msg: seq<Byte>, start: nat)
    requires Readable(msg, start)
    ensures var e := LabelsEnd(msg, start).value;
            Dots(NameAt(msg, start)) ==
            Dots(LabelsFrom(msg, start)) + if msg[e] == 0 then [] else Dots(NameAt(msg, msg[e + 1]))
  {
    var e := LabelsEnd(msg, start).value;
    if msg[e] != 0 {
      DotsAppend(LabelsFrom(msg, start), NameAt(msg, msg[e + 1]));
    } else {
      assert LabelsFrom(msg, start) + [] == LabelsFrom(msg, start);
    }
  }

  /** The loop of resolveRRName over the labels. */
  method CopyLabels(msg: seq<Byte>, curp: nat, pname: seq<Byte>) returns (cur: nat, name: seq<Byte>)
    requires LabelsEnd(msg, curp).Some?
    ensures cur == LabelsEnd(msg, curp).value && name == pname + Dots(LabelsFrom(msg, curp))
  {
    hide Dots;
    cur, name := curp, pname;
    var num: int := msg[cur];
    while num != 0 && StartsLabel(msg[cur])
      invariant curp <= cur < |msg| && num == msg[cur] && LabelsEnd(msg, cur) == LabelsEnd(msg, curp)
      invariant name + Dots(LabelsFrom(msg, cur)) == pname + Dots(LabelsFrom(msg, curp))
      decreases |msg| - cur
    {
      LabelStep(msg, cur);
      name := name + msg[cur + 1..cur + 1 + num] + [DOT];
      cur := cur + 1 + num;
      num := msg[cur];
    }
    NoDots();
  }

  lemma NoDots()
    ensures Dots([]) == []
  {
  }

  /**
   * resolveRRName: copies the labels and a dot after each behind what the name has so far, follows a pointer, and
   * returns how many bytes of the message the name takes.
   */
  method ResolveRRName(msg: seq<Byte>, curp: nat, pname: seq<Byte>) returns (resolved: int, name: seq<Byte>)
    requires Readable(msg, curp)
    ensures name == pname + Dots(NameAt(msg, curp)) && resolved == SizeAt(msg, curp)
    decreases curp
  {
    hide Dots, LabelsEnd, LabelsFrom;
    NameSplit(msg, curp);
    var cur;
    cur, name := CopyLabels(msg, curp, pname);
    if msg[cur] == 0 {
      cur := cur + 1;
    } else {
      var high, low := msg[cur] as int % 64, msg[cur + 1];       // low six bits: none is set
      var ret;
      ret, name := ResolveRRName(msg, high + low, name);
      cur := cur + 2;
    }
    resolved := cur - curp;
  }

  // ---------------------------------------------------------------- reading what was packed

  /** Lengths that startWithLabel knows for what they are. */
  predicate Legible(ls: seq<seq<Byte>>) {
    forall i :: 0 <= i < |ls| ==> |ls[i]| % 64 != 0
  }

  lemma PackedAt(pre: seq<Byte>, ls: seq<seq<Byte>>, post: seq<Byte>)
    requires Short(ls) && ls != []
    ensures var msg, p := pre + Encoded(ls) + post, |pre|; var q := p + 1 + |ls[0]|;
            q < |msg| && msg[p] == |ls[0]| && msg[p + 1..q] == ls[0] &&
              msg == pre + Packed(ls[0]) + Encoded(ls[1..]) + post
  {
    var msg := pre + Encoded(ls) + post;
    var first, rest := Packed(ls[0]), Encoded(ls[1..]);
    assert Encoded(ls) == first + rest;
    hide Encoded, Packed;
    PackedIs(ls[0]);
    assert msg == pre + first + rest + post;
    assert msg[|pre|..|pre| + |first|] == first;
    assert msg[|pre|] == first[0] && msg[|pre| + 1..|pre| + |first|] == first[1..];
    assert |rest| > 0 by { EncodedSome(ls[1..]); }
  }

  lemma PackedIs(lab: seq<Byte>)
    requires |lab| < 256
    ensures Packed(lab) == [|lab|] + lab
  {
  }

  lemma EncodedSome(ls: seq<seq<Byte>>)
    ensures Encoded(ls) != []
  {
  }

  lemma {:induction false} LegibleScan(pre: seq<Byte>, ls: seq<seq<Byte>>, post: seq<Byte>)
    requires Short(ls) && Legible(ls)
    ensures var msg := pre + Encoded(ls) + post; var e := LabelsEnd(msg, |pre|);
            e == Some(|pre| + |Encoded(ls)| - 1) && msg[e.value] == 0 && LabelsFrom(msg, |pre|) == ls
    decreases |ls|
  {
    hide Encoded;
    if ls == [] {
      EncodedEnd();
    } else {
      PackedAt(pre, ls, post);
      var next := pre + Packed(ls[0]);
      LegibleScan(next, ls[1..], post);
      assert ls == [ls[0]] + ls[1..];
      EncodedSize(ls);
    }
  }

  lemma EncodedEnd()
    ensures Encoded([]) == [0]
  {
  }

  lemma EncodedSize(ls: seq<seq<Byte>>)
    requires ls != []
    ensures |Encoded(ls)| == 1 + |ls[0]| + |Encoded(ls[1..])|
  {
  }

  /** A length that is a multiple of 64 stops the reading, short of the end. */
  lemma {:induction false} IllegibleScan(pre: seq<Byte>, ls: seq<seq<Byte>>, post: seq<Byte>)
    requires Short(ls) && !Legible(ls)
    ensures var msg := pre + Encoded(ls) + post; var e := LabelsEnd(msg, |pre|);
            e.Some? && msg[e.value] != 0 && e.value + 2 < |pre| + |Encoded(ls)|
    decreases |ls|
  {
    hide Encoded;
    PackedAt(pre, ls, post);
    EncodedSize(ls);
    if |ls[0]| % 64 != 0 {
      assert forall i :: 0 <= i < |ls[1..]| ==> ls[1..][i] == ls[i + 1];
      IllegibleScan(pre + Packed(ls[0]), ls[1..], post);
    }
  }

  /**
   * Reading back a packed name, wherever it stands in a message: it gives every label and takes exactly the bytes that
   * were packed, if and only if no label has a length that is a multiple of 64. The labels that section 2.3.4 of
   * RFC 1035 allows, of 1 to 63 bytes, are among those.
   */
  lemma ReadPacked(pre: seq<Byte>, ls: seq<seq<Byte>>, post: seq<Byte>)
    requires Short(ls)
    ensures var msg := pre + Encoded(ls) + post;
            Legible(ls) <==> Readable(msg, |pre|) && NameAt(msg, |pre|) == ls && SizeAt(msg, |pre|) == |Encoded(ls)|
  {
    hide Encoded, LabelsFrom, LabelsEnd;
    if Legible(ls) {
      LegibleScan(pre, ls, post);
    } else {
      IllegibleScan(pre, ls, post);
    }
  }

  // ---------------------------------------------------------------- the standard's reading

  /**
   * A name as section 4.1.4 of RFC 1035 has it, from p on, its start being given: pointers have 14 bits and lead back.
   */
  function RfcName(msg: seq<Byte>, p: nat, start: nat): (ls: Option<seq<seq<Byte>>>)
    ensures ls.Some? ==> forall i :: 0 <= i < |ls.value| ==> |ls.value[i]| < 64
    decreases start, |msg| - p
  {
    if p >= |msg| then None
    else if msg[p] == 0 then Some([])
    else if msg[p] < 64 then
      if p + 1 + msg[p] > |msg| then None
      else
        match RfcName(msg, p + 1 + msg[p], start)
        case None => None
        case Some(ls) => Some([msg[p + 1..p + 1 + msg[p]]] + ls)
    else if msg[p] >= 192 && p + 1 < |msg| then
      var offset := (msg[p] as int - 192) * 256 + msg[p + 1];
      if offset < start then RfcName(msg, offset, offset) else None
    else None
  }

  /** Every pointer the reading meets leads to one of the first 256 bytes. */
  predicate LowPointers(msg: seq<Byte>, p: nat, start: nat)
    requires RfcName(msg, p, start).Some?
    decreases start, |msg| - p
  {
    if msg[p] == 0 then true
    else if msg[p] < 64 then LowPointers(msg, p + 1 + msg[p], start)
    else msg[p] == 192 && LowPointers(msg, msg[p + 1], msg[p + 1])
  }

  lemma EndStep(msg: seq<Byte>, p: nat)
    requires p < |msg| && StartsLabel(msg[p]) && p + 1 + msg[p] <= |msg|
    ensures var q := p + 1 + msg[p];
            LabelsEnd(msg, p) == LabelsEnd(msg, q) &&
            (LabelsEnd(msg, q).Some? ==> LabelsFrom(msg, p) == [msg[p + 1..q]] + LabelsFrom(msg, q))
  {
  }

  lemma ReadLabel(msg: seq<Byte>, p: nat, start: nat)
    requires p < |msg| && StartsLabel(msg[p]) && p + 1 + msg[p] <= |msg|
    ensures var q := p + 1 + msg[p];
            && (ReadableFrom(msg, p, start) <==> ReadableFrom(msg, q, start))
            && (ReadableFrom(msg, p, start) ==> NameFrom(msg, p, start) == [msg[p + 1..q]] + NameFrom(msg, q, start))
  {
    hide LabelsEnd, LabelsFrom, StartsLabel;
    EndStep(msg, p);
    var q := p + 1 + msg[p];
    if ReadableFrom(msg, q, start) {
      var e := LabelsEnd(msg, q).value;
      var tail := if msg[e] == 0 then [] else NameFrom(msg, msg[e + 1], msg[e + 1]);
      assert [msg[p + 1..q]] + LabelsFrom(msg, q) + tail == [msg[p + 1..q]] + (LabelsFrom(msg, q) + tail);
    }
  }

  lemma ReadPointer(msg: seq<Byte>, p: nat, start: nat)
    requires p + 1 < |msg| && msg[p] == 192 && msg[p + 1] < start
    ensures var q := msg[p + 1];
            && (ReadableFrom(msg, p, start) <==> ReadableFrom(msg, q, q))
            && (ReadableFrom(msg, p, start) ==> NameFrom(msg, p, start) == NameFrom(msg, q, q))
  {
    assert LabelsEnd(msg, p) == Some(p) && LabelsFrom(msg, p) == [];
  }

  lemma ReadZero(msg: seq<Byte>, p: nat, start: nat)
    requires p < |msg| && msg[p] == 0
    ensures ReadableFrom(msg, p, start) && NameFrom(msg, p, start) == []
  {
  }

  lemma RfcLabel(msg: seq<Byte>, p: nat, start: nat)
    requires RfcName(msg, p, start).Some? && 0 < msg[p] < 64
    ensures var q := p + 1 + msg[p];
            && q <= |msg| && RfcName(msg, q, start).Some?
            && RfcName(msg, p, start).value == [msg[p + 1..q]] + RfcName(msg, q, start).value
            && (LowPointers(msg, p, start) <==> LowPointers(msg, q, start))
  {
  }

  lemma RfcPointer(msg: seq<Byte>, p: nat, start: nat)
    requires RfcName(msg, p, start).Some? && 64 <= msg[p]
    ensures 192 <= msg[p] && p + 1 < |msg|
    ensures msg[p] > 192 ==> !LowPointers(msg, p, start)
    ensures var q := msg[p + 1];
            msg[p] == 192 ==> q < start && RfcName(msg, q, q) == RfcName(msg, p, start) &&
                              (LowPointers(msg, p, start) <==> LowPointers(msg, q, q))
  {
  }

  lemma {:induction false} LowAgrees(msg: seq<Byte>, p: nat, start: nat)
    requires RfcName(msg, p, start).Some? && LowPointers(msg, p, start)
    ensures ReadableFrom(msg, p, start) && NameFrom(msg, p, start) == RfcName(msg, p, start).value
    decreases start, |msg| - p
  {
    if msg[p] == 0 {
      hide NameFrom, ReadableFrom;
      ReadZero(msg, p, start);
    } else if msg[p] < 64 {
      hide *;
      Defined(msg, p, start);
      RfcLabel(msg, p, start);
      LabelByte(msg[p]);
      LowAgrees(msg, p + 1 + msg[p], start);
      ReadLabel(msg, p, start);
    } else {
      hide *;
      Defined(msg, p, start);
      RfcPointer(msg, p, start);
      LowAgrees(msg, msg[p + 1], msg[p + 1]);
      ReadPointer(msg, p, start);
    }
  }

  lemma Defined(msg: seq<Byte>, p: nat, start: nat)
    requires RfcName(msg, p, start).Some?
    ensures p < |msg|
  {
  }

  lemma LabelByte(b: Byte)
    ensures 0 < b < 64 || 192 < b ==> StartsLabel(b)
  {
  }

  predicate HasLong(ls: seq<seq<Byte>>) {
    exists i :: 0 <= i < |ls| && |ls[i]| >= 64
  }

  lemma LongIn(a: seq<seq<Byte>>, b: seq<seq<Byte>>)
    ensures HasLong(a + b) <==> HasLong(a) || HasLong(b)
  {
    var c := a + b;
    assert forall i :: 0 <= i < |a| ==> c[i] == a[i];
    assert forall i :: 0 <= i < |b| ==> c[|a| + i] == b[i];
  }

  lemma {:induction false} HighShows(msg: seq<Byte>, p: nat, start: nat)
    requires RfcName(msg, p, start).Some? && !LowPointers(msg, p, start) && ReadableFrom(msg, p, start)
    ensures HasLong(NameFrom(msg, p, start))
    decreases start, |msg| - p
  {
    hide RfcName, ReadableFrom, NameFrom, StartsLabel, LabelsEnd, LabelsFrom;
    Defined(msg, p, start);
    if msg[p] < 64 {
      hide LowPointers, HasLong;
      Positive(msg, p, start);
      var q := p + 1 + msg[p];
      RfcLabel(msg, p, start);
      LabelByte(msg[p]);
      ReadLabel(msg, p, start);
      HighShows(msg, q, start);
      LongIn([msg[p + 1..q]], NameFrom(msg, q, start));
    } else {
      hide LowPointers;
      RfcPointer(msg, p, start);
      if msg[p] == 192 {
        ReadPointer(msg, p, start);
        HighShows(msg, msg[p + 1], msg[p + 1]);
      } else {
        LabelByte(msg[p]);
        Fits(msg, p, start);
        ReadLabel(msg, p, start);
        assert |NameFrom(msg, p, start)[0]| == msg[p];
      }
    }
  }

  lemma Positive(msg: seq<Byte>, p: nat, start: nat)
    requires RfcName(msg, p, start).Some? && !LowPointers(msg, p, start)
    ensures 0 < msg[p]
  {
  }

  lemma Fits(msg: seq<Byte>, p: nat, start: nat)
    requires ReadableFrom(msg, p, start) && p < |msg| && StartsLabel(msg[p])
    ensures p + 1 + msg[p] <= |msg|
  {
  }

  /**
   * On every name the standard can read, resolveRRName reads the same, if and only if all the pointers it meets lead to
   * the first 256 bytes of the message: it takes the first byte of any other pointer for the length of a label.
   */
  lemma AgreesIffLow(msg: seq<Byte>, start: nat)
    requires RfcName(msg, start, start).Some?
    ensures Readable(msg, start) && NameAt(msg, start) == RfcName(msg, start, start).value <==>
              LowPointers(msg, start, start)
  {
    hide RfcName, LowPointers, ReadableFrom, NameFrom;
    if LowPointers(msg, start, start) {
      LowAgrees(msg, start, start);
    } else if Readable(msg, start) {
      HighShows(msg, start, start);
    }
  }

  // ---------------------------------------------------------------- packing a query

  /** The bytes of s before its first zero. */
  function CString(s: seq<Byte>): (t: seq<Byte>)
    ensures |t| <= |s| && forall i :: 0 <= i < |t| ==> t[i] == s[i] != 0
    ensures |t| < |s| ==> s[|t|] == 0
  {
    if s == [] || s[0] == 0 then [] else [s[0]] + CString(s[1..])
  }

  /** strtok(…, "."): skips dots, and gives the bounds of the next label and where to go on. */
  method Strtok(domain: seq<Byte>, from: nat) returns (found: bool, ptr: nat, len: nat, next: nat)
    requires from <= |domain|
    ensures !found ==> Labels(domain[from..]) == []
    ensures found ==> from <= ptr && 0 < len && ptr + len <= next <= |domain|
    ensures found ==> Labels(domain[from..]) == [domain[ptr..ptr + len]] + Labels(domain[next..])
  {
    ptr := from;
    while ptr < |domain| && domain[ptr] == DOT
      invariant from <= ptr <= |domain| && Labels(domain[ptr..]) == Labels(domain[from..])
    {
      assert domain[ptr..][1..] == domain[ptr + 1..];
      ptr := ptr + 1;
    }
    len, next := 0, ptr;
    if ptr == |domain| {
      return false, ptr, 0, ptr;
    }
    ghost var rest := domain[ptr..];
    while ptr + len < |domain| && domain[ptr + len] != DOT
      invariant ptr + len <= |domain| && len <= LabelLength(rest)
    {
      assert rest[len] == domain[ptr + len];
      len := len + 1;
    }
    assert ptr + len < |domain| ==> rest[len] == domain[ptr + len];
    assert len == LabelLength(rest);
    assert rest[..len] == domain[ptr..ptr + len] && rest[len..] == domain[ptr + len..];
    next := ptr + len;
    if next < |domain| {
      assert domain[next..][1..] == domain[next + 1..];
      next := next + 1;
    }
    found := true;
  }

  /** Labels with their lengths, without the zero. */
  function Written(ls: seq<seq<Byte>>): seq<Byte> {
    if ls == [] then [] else Written(ls[..|ls| - 1]) + Packed(ls[|ls| - 1])
  }

  lemma {:induction false} WrittenEncoded(ls: seq<seq<Byte>>, more: seq<seq<Byte>>)
    ensures Encoded(ls + more) == Written(ls) + Encoded(more)
    decreases |ls|
  {
    if ls == [] {
      assert ls + more == more;
    } else {
      hide Packed;
      var init, last := ls[..|ls| - 1], ls[|ls| - 1];
      WrittenEncoded(init, [last] + more);
      assert init + ([last] + more) == ls + more;
      assert ([last] + more)[1..] == more;
      assert Written(init) + (Packed(last) + Encoded(more)) == (Written(init) + Packed(last)) + Encoded(more);
    }
  }

  lemma {:induction false} EncodedFits(s: seq<Byte>)
    requires |s| < 255
    ensures Short(Labels(s)) && |Encoded(Labels(s))| <= |s| + 2
    ensures s != [] && s[0] == DOT ==> |Encoded(Labels(s))| <= |s| + 1
    decreases |s|
  {
    if s != [] {
      if s[0] == DOT {
        EncodedFits(s[1..]);
      } else {
        var n := LabelLength(s);
        EncodedFits(s[n..]);
        assert Labels(s)[1..] == Labels(s[n..]);
      }
    }
  }

  /** Copies bytes into the query. */
  method CopyIn(buf: array<Byte>, cur: nat, bytes: seq<Byte>)
    requires cur + |bytes| <= buf.Length
    modifies buf
    ensures buf[..cur + |bytes|] == old(buf[..cur]) + bytes
    ensures forall k :: cur + |bytes| <= k < buf.Length ==> buf[k] == old(buf[k])
  {
    var i := 0;
    while i < |bytes|
      invariant 0 <= i <= |bytes|
      invariant buf[..cur + i] == old(buf[..cur]) + bytes[..i]
      invariant forall k :: cur + i <= k < buf.Length ==> buf[k] == old(buf[k])
    {
      buf[cur + i] := bytes[i];
      i := i + 1;
    }
    assert bytes[..i] == bytes;
  }

  /** One label after its length. */
  method PackLabel(buf: array<Byte>, start: nat, lab: seq<Byte>) returns (cur: nat)
    requires start + 1 + |lab| <= buf.Length
    modifies buf
    ensures cur == start + 1 + |lab| && buf[..cur] == old(buf[..start]) + Packed(lab)
    ensures forall k :: cur <= k < buf.Length ==> buf[k] == old(buf[k])
  {
    var num := |lab| % 256;
    CopyIn(buf, start, [num]);
    CopyIn(buf, start + 1, lab);
    cur := start + 1 + |lab|;
  }

  /** The labels of a name, each after its length. */
  method PackLabels(buf: array<Byte>, start: nat, domain: seq<Byte>) returns (cur: nat)
    requires start + |Encoded(Labels(domain))| <= buf.Length
    modifies buf
    ensures cur == start + |Written(Labels(domain))| < buf.Length
    ensures buf[..cur] == old(buf[..start]) + Written(Labels(domain))
    ensures forall k :: cur <= k < buf.Length ==> buf[k] == old(buf[k])
  {
    hide Labels, Encoded, Written, Packed, LabelLength;
    cur := start;
    ghost var done: seq<seq<Byte>> := [];
    NothingWritten();
    var found: bool, ptr: nat, len: nat, next: nat := Strtok(domain, 0);
    assert domain[0..] == domain;
    while found
      invariant cur == start + |Written(done)| <= buf.Length && buf[..cur] == old(buf[..start]) + Written(done)
      invariant forall k :: cur <= k < buf.Length ==> buf[k] == old(buf[k])
      invariant found ==> ptr + len <= next <= |domain| && 0 < len
      invariant Labels(domain) == done + if found then [domain[ptr..ptr + len]] + Labels(domain[next..]) else []
      decreases if found then 1 + |domain| - next else 0
    {
      ghost var lab, more := domain[ptr..ptr + len], Labels(domain[next..]);
      Room(done, lab, more);
      cur := PackLabel(buf, cur, domain[ptr..ptr + len]);
      assert done + ([lab] + more) == (done + [lab]) + more;
      done := done + [lab];
      found, ptr, len, next := Strtok(domain, next);
    }
    assert done + [] == done;
    Closed(done);
  }

  /** The name of a query: its labels and a zero, which is there already. */
  method PackName(buf: array<Byte>, start: nat, domain: seq<Byte>) returns (cur: nat)
    requires |domain| < DNS_DOMAIN_NAME_LIMIT && start + |domain| + 2 <= buf.Length
    requires forall k :: start <= k < buf.Length ==> buf[k] == 0
    modifies buf
    ensures cur == start + |Encoded(Labels(domain))| <= buf.Length
    ensures buf[..cur] == old(buf[..start]) + Encoded(Labels(domain))
    ensures forall k :: cur <= k < buf.Length ==> buf[k] == 0
  {
    hide Labels, Encoded, Written, Short;
    EncodedFits(domain);
    cur := PackLabels(buf, start, domain);
    Closed(Labels(domain));
    assert buf[..cur + 1] == buf[..cur] + [0];
    cur := cur + 1;
  }

  lemma NothingWritten()
    ensures Written([]) == []
  {
  }

  lemma Room(done: seq<seq<Byte>>, lab: seq<Byte>, more: seq<seq<Byte>>)
    ensures Written(done + [lab]) == Written(done) + Packed(lab)
    ensures |Written(done)| + 1 + |lab| + 1 <= |Encoded(done + ([lab] + more))|
  {
    assert done + ([lab] + more) == (done + [lab]) + more;
    assert (done + [lab])[..|done|] == done;
    WrittenEncoded(done + [lab], more);
  }

  lemma Closed(done: seq<seq<Byte>>)
    ensures Encoded(done) == Written(done) + [0]
  {
    WrittenEncoded(done, []);
    assert done + [] == done;
  }

  /** The header of a query: the id, the recursion-desired flag, one question and one additional record. */
  function Header(id: nat): (h: seq<Byte>)
    requires id < 65536
    ensures |h| == 12
  {
    [id / 256, id % 256, 1, 0, 0, 1, 0, 0, 0, 0, 0, 1]
  }

  /** Type A, class IN; then the OPT record of section 4.3 of RFC 2671, for a payload of 1280 bytes. */
  function Trailer(): (t: seq<Byte>)
    ensures |t| == 15
  {
    [0, 1, 0, 1, 0, 0, 41, 5, 0, 0, 0, 0, 0, 0, 0]
  }

  /** The two bytes from k on as a number, the higher one first. */
  function Word(m: seq<Byte>, k: nat): nat
    requires k + 2 <= |m|
  {
    var high: nat := m[k];
    256 * high + m[k + 1]
  }

  /** The n bits of a word behind the first k, the highest being the first. */
  function Bits(word: nat, k: nat, n: nat): nat
    requires k + n <= 16
  {
    word / Power2(16 - k - n) % Power2(n)
  }

  function Power2(n: nat): (p: nat)
    ensures 0 < p
  {
    if n == 0 then 1 else 2 * Power2(n - 1)
  }

  /** The header of section 4.1.1 of RFC 1035 for a standard query with recursion, and an additional record. */
  predicate IsQueryHeader(m: seq<Byte>, id: nat)
    requires 12 <= |m|
  {
    var flags := Word(m, 2);
    && Word(m, 0) == id
    && Bits(flags, 0, 1) == 0                          // QR: a query
    && Bits(flags, 1, 4) == 0                          // OPCODE: a standard one
    && Bits(flags, 5, 1) == 0 && Bits(flags, 6, 1) == 0  // AA and TC
    && Bits(flags, 7, 1) == 1                          // RD: recursion desired
    && Bits(flags, 8, 8) == 0                          // RA, Z and RCODE
    && Word(m, 4) == 1 && Word(m, 6) == 0 && Word(m, 8) == 0 && Word(m, 10) == 1
  }

  /** The rest of a question of section 4.1.2 of RFC 1035, and the OPT record of section 4.3 of RFC 2671. */
  predicate IsQueryEnd(m: seq<Byte>, k: nat) {
    && |m| == k + 15
    && Word(m, k) == 1 && Word(m, k + 2) == 1          // QTYPE A, QCLASS IN
    && m[k + 4] == 0 && Word(m, k + 5) == 41           // the root name, and the type OPT
    && Word(m, k + 7) == 1280                          // the payload
    && Word(m, k + 9) == 0 && Word(m, k + 11) == 0     // the extended code and flags
    && Word(m, k + 13) == 0                            // no data
  }

  /** A query: its header, one question for the address of the name, and the OPT record. */
  predicate IsQuery(m: seq<Byte>, id: nat, name: seq<Byte>) {
    && 12 + |name| <= |m| && IsQueryHeader(m, id) && m[12..12 + |name|] == name
    && IsQueryEnd(m, 12 + |name|)
  }

  lemma HeaderFields(m: seq<Byte>, id: nat)
    requires id < 65536 && 12 <= |m| && m[..12] == Header(id)
    ensures IsQueryHeader(m, id)
  {
    assert forall i :: 0 <= i < 12 ==> m[i] == Header(id)[i];
    assert Power2(1) == 2 && Power2(2) == 4 && Power2(3) == 8 && Power2(4) == 16;
    assert Power2(8) == 256 by { assert Power2(6) == 64; }
    assert Power2(9) == 512 && Power2(10) == 1024 && Power2(11) == 2048;
    assert Power2(15) == 32768 by { assert Power2(13) == 8192; }
  }

  lemma QueryFields(id: nat, name: seq<Byte>)
    requires id < 65536
    ensures IsQuery(Header(id) + name + Trailer(), id, name)
  {
    var m := Header(id) + name + Trailer();
    HeaderFields(m, id);
    assert m[12 + |name|..] == Trailer();
    assert forall i :: 0 <= i < 15 ==> m[12 + |name| + i] == Trailer()[i];
  }

  /** packDNSQuery: the whole query for a host name that fits the name buffer. */
  method PackDNSQuery(buf: array<Byte>, id: nat, host: seq<Byte>) returns (n: nat)
    requires buf.Length == DNS_MESSAGE_LIMIT && id < 65536 && |host| < DNS_DOMAIN_NAME_LIMIT
    modifies buf
    ensures n <= buf.Length && buf[..n] == Header(id) + Encoded(Labels(CString(host))) + Trailer()
    ensures IsQuery(buf[..n], id, Encoded(Labels(CString(host))))
    ensures forall k :: n <= k < buf.Length ==> buf[k] == 0
  {
    hide Labels, Encoded, CString;
    var i := 0;
    while i < buf.Length
      invariant 0 <= i <= buf.Length && forall k :: 0 <= k < i ==> buf[k] == 0
    {
      buf[i] := 0;
      i := i + 1;
    }
    var domain := CString(host);
    EncodedFits(domain);
    CopyIn(buf, 0, Header(id));
    assert buf[..12] == Header(id);
    var cur := PackName(buf, 12, domain);
    CopyIn(buf, cur, Trailer());
    n := cur + 15;
    QueryFields(id, Encoded(Labels(domain)));
  }

  /**
   * From the query back to the name: reading the name of a packed query gives the host name and a dot, and takes just
   * the bytes of the name, for every host name without empty labels or zero bytes whose labels have legible lengths.
   */
  method ReadQuery(id: nat, host: seq<Byte>) returns (name: seq<Byte>)
    requires id < 65536 && |host| < DNS_DOMAIN_NAME_LIMIT && Normal(host) && 0 !in host && Legible(Labels(host))
    ensures name == host + [DOT]
  {
    hide Labels, Encoded, CString, Normal, Dots, Readable, NameAt, SizeAt, Legible;
    var buf := new Byte[DNS_MESSAGE_LIMIT](_ => 0);
    var n := PackDNSQuery(buf, id, host);
    CStringWhole(host);
    var msg := buf[..n];
    ReadPacked(Header(id), Labels(host), Trailer());
    DotsIffNormal(host);
    var resolved;
    resolved, name := ResolveRRName(msg, 12, []);
    assert resolved == |Encoded(Labels(host))|;
    assert [] + Dots(Labels(host)) == Dots(Labels(host));
  }

  lemma {:induction false} CStringWhole(s: seq<Byte>)
    requires 0 !in s
    ensures CString(s) == s
  {
    if s != [] {
      CStringWhole(s[1..]);
      assert s == [s[0]] + s[1..];
    }
  }
}
