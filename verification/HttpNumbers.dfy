/**
 * The two numbers that frame a body: the decimal Content-Length and the hexadecimal chunk size, accumulated digit by
 * digit in 64-bit arithmetic behind an overflow guard.
 */
module HttpNumbers {
  import opened Basics
  import opened HttpChars
  import opened HttpParserTypes
  import opened HttpParserStep
  import opened HttpParserFeed

  /** The number n continued by the decimal digits of v; spaces are skipped, as the parser skips them. */
  function Decimal(n: nat, v: seq<char>): nat
    requires forall i :: 0 <= i < |v| ==> IsNum(v[i]) || v[i] == ' '
  {
    if v == [] then n
    else if v[|v| - 1] == ' ' then Decimal(n, v[..|v| - 1])
    else Decimal(n, v[..|v| - 1]) * 10 + DigitValue(v[|v| - 1])
  }

  /** The number n continued by hexadecimal digits. */
  function Hexadecimal(n: nat, v: seq<char>): nat
    requires forall i :: 0 <= i < |v| ==> IsHex(v[i])
  {
    if v == [] then n else Hexadecimal(n, v[..|v| - 1]) * 16 + Unhex(v[|v| - 1])
  }

  /** The overflow guard admits a digit exactly when the number so far is small, and then nothing wraps. */
  lemma LengthGuard(n: nat, d: nat)
    requires d < 10
    ensures LengthDigit(n, d) == if n <= 1844674407370955160 then Some(n * 10 + d) else None
    ensures n <= 1844674407370955160 ==> n * 10 + d < ULLONG_MAX
  {
  }

  lemma ChunkGuard(n: nat, d: nat)
    requires d < 16
    ensures ChunkDigit(n, d) == if n <= 0xFFF_FFFF_FFFF_FFFE then Some(n * 16 + d) else None
    ensures n <= 0xFFF_FFFF_FFFF_FFFE ==> n * 16 + d < ULLONG_MAX
  {
  }

  /** One further byte of a Content-Length value. */
  lemma LengthByte(cfg: Settings, c: Core, ch: char)
    requires c.state.HeaderValue? && c.header.ContentLength? && c.errno.Ok? && ch != CR && ch != LF
    ensures var o := Dispatch(cfg, c, ch);
            if ch == ' ' then o == Keep(c, HeaderValue, Value)
            else if IsNum(ch) && c.contentLength <= 1844674407370955160 then
              o == Keep(c.(contentLength := c.contentLength * 10 + DigitValue(ch)), HeaderValue, Value)
            else o.act.Fail? && (o.core.errno.InvalidContentLength? || o.core.errno.InvalidHeaderToken?)
  {
    if IsNum(ch) {
      LengthGuard(c.contentLength, DigitValue(ch));
    }
  }

  /**
   * Whether every digit of v passes the guard when the number before v is n: no number but the last may exceed the
   * guard.
   */
  predicate LengthFits(n: nat, v: seq<char>)
    requires forall i :: 0 <= i < |v| ==> IsNum(v[i]) || v[i] == ' '
  {
    forall i :: 0 <= i < |v| && v[i] != ' ' ==> Decimal(n, v[..i]) <= 1844674407370955160
  }

  lemma DecimalSplit(n: nat, v: seq<char>, ch: char)
    requires forall i :: 0 <= i < |v| ==> IsNum(v[i]) || v[i] == ' '
    requires IsNum(ch) || ch == ' '
    ensures Decimal(n, v + [ch]) == if ch == ' ' then Decimal(n, v) else Decimal(n, v) * 10 + DigitValue(ch)
  {
    assert (v + [ch])[..|v|] == v;
  }

  /**
   * Reading the rest of a Content-Length value, from the number its start gave: it is accepted exactly when it consists
   * of digits and spaces and every digit fits, and then the parser holds its mathematical value, below ULLONG_MAX.
   */
  lemma {:induction false} LengthValue(cfg: Settings, c: Core, v: seq<char>, p: nat, n: nat)
    requires p <= |v| && forall i :: 0 <= i < |v| ==> v[i] != CR && v[i] != LF
    requires c.state.HeaderValue? && c.header.ContentLength? && c.errno.Ok?
    requires forall i :: 0 <= i < p ==> IsNum(v[i]) || v[i] == ' '
    requires LengthFits(n, v[..p]) && c.contentLength == Decimal(n, v[..p]) < ULLONG_MAX
    ensures var f := Feed(cfg, c, v, p);
            var plain := forall i :: 0 <= i < |v| ==> IsNum(v[i]) || v[i] == ' ';
            if plain && LengthFits(n, v) then
              !f.stopped && f.core == c.(contentLength := Decimal(n, v)) && Decimal(n, v) < ULLONG_MAX &&
              f.events == DataEvents(Value, v[p..])
            else
              f.stopped && (f.core.errno.InvalidContentLength? || f.core.errno.InvalidHeaderToken?)
    decreases |v| - p
  {
    hide Dispatch, Feed, Slips, SlipsAt, LengthFits, IsNum, DigitValue, DataEvents, Decimal;
    if p == |v| {
      NothingLeft(cfg, c, v);
      assert v[..p] == v;
      assert DataEvents(Value, v[p..]) == [];
    } else {
      LengthByte(cfg, c, v[p]);
      var o := Dispatch(cfg, c, v[p]);
      if o.act.Fail? {
        FeedFail(cfg, c, v, p);
        FitsNot(n, v, p);
      } else {
        FeedAdvance(cfg, c, v, p);
        DecimalSplit(n, v[..p], v[p]);
        assert v[..p] + [v[p]] == v[..p + 1];
        FitsStep(n, v, p);
        LengthValue(cfg, o.core, v, p + 1, n);
        DataFirst(Value, v, p);
      }
    }
  }

  lemma LengthStart(cfg: Settings, c: Core, ch: char)
    requires c.state.HeaderValueDiscardWs? && c.header.ContentLength? && c.errno.Ok?
    requires ch != CR && ch != LF && ch != ' ' && ch != '\t'
    ensures var o := Dispatch(cfg, c, ch);
            if IsNum(ch) && !c.flags.contentLength then
              o == Keep(c.(index := 0, flags := c.flags.(contentLength := true), contentLength := DigitValue(ch)),
                        HeaderValue, Value)
            else o.act.Fail? && (o.core.errno.InvalidContentLength? || o.core.errno.UnexpectedContentLength?)
  {
  }

  /**
   * A whole Content-Length value: it is accepted exactly when there was none before, it begins with a digit, consists
   * of digits and spaces, and every digit fits; and then the parser holds its mathematical value, below ULLONG_MAX.
   */
  lemma WholeLength(cfg: Settings, c: Core, v: seq<char>)
    requires c.state.HeaderValueDiscardWs? && c.header.ContentLength? && c.errno.Ok?
    requires v != [] && v[0] != ' ' && v[0] != '\t' && forall i :: 0 <= i < |v| ==> v[i] != CR && v[i] != LF
    ensures var f := Feed(cfg, c, v, 0);
            var plain := IsNum(v[0]) && forall i :: 0 <= i < |v| ==> IsNum(v[i]) || v[i] == ' ';
            if !c.flags.contentLength && plain && LengthFits(0, v) then
              && !f.stopped && Decimal(0, v) < ULLONG_MAX && f.events == DataEvents(Value, v)
              && f.core == c.(state := HeaderValue, index := 0, flags := c.flags.(contentLength := true),
                              contentLength := Decimal(0, v))
            else
              f.stopped && (f.core.errno.InvalidContentLength? || f.core.errno.UnexpectedContentLength? ||
                            f.core.errno.InvalidHeaderToken?)
  {
    hide Dispatch, Feed, Slips, SlipsAt, IsNum, DigitValue, LengthFits, Decimal, DataEvents;
    LengthStart(cfg, c, v[0]);
    if IsNum(v[0]) && !c.flags.contentLength {
      var c1 := c.(state := HeaderValue, index := 0, flags := c.flags.(contentLength := true),
                   contentLength := DigitValue(v[0]));
      BegunLength(cfg, c, v, c1);
      FirstDigit(v);
      LengthValue(cfg, c1, v, 1, 0);
    } else {
      FeedFail(cfg, c, v, 0);
    }
  }

  /** The first byte of a value, and the rest. */
  lemma BegunLength(cfg: Settings, c: Core, v: seq<char>, c1: Core)
    requires v != [] && Dispatch(cfg, c, v[0]) == Keep(c1, HeaderValue, Value) && c1.state.HeaderValue?
    ensures var f, g := Feed(cfg, c, v, 0), Feed(cfg, c1, v, 1);
            f.stopped == g.stopped && f.core == g.core &&
            (g.events == DataEvents(Value, v[1..]) ==> f.events == DataEvents(Value, v))
  {
    hide Dispatch, Feed, Slips, SlipsAt, DataEvents;
    FeedAdvance(cfg, c, v, 0);
    assert v[0..] == v;
    DataFirst(Value, v, 0);
  }

  lemma FirstDigit(v: seq<char>)
    requires v != [] && IsNum(v[0])
    ensures LengthFits(0, v[..1]) && Decimal(0, v[..1]) == DigitValue(v[0])
  {
    assert v[..1] == [v[0]] && [v[0]][..0] == [];
    assert Decimal(0, [v[0]]) == Decimal(0, []) * 10 + DigitValue(v[0]);
  }

  /** A value with a byte that is neither a digit that fits nor a space does not fit. */
  lemma FitsNot(n: nat, v: seq<char>, p: nat)
    requires p < |v| && forall i :: 0 <= i < p ==> IsNum(v[i]) || v[i] == ' '
    requires v[p] != ' ' && (IsNum(v[p]) ==> Decimal(n, v[..p]) > 1844674407370955160)
    ensures (forall i :: 0 <= i < |v| ==> IsNum(v[i]) || v[i] == ' ') ==> !LengthFits(n, v)
  {
    hide Decimal;
  }

  lemma FitsStep(n: nat, v: seq<char>, p: nat)
    requires p < |v| && forall i :: 0 <= i <= p ==> IsNum(v[i]) || v[i] == ' '
    requires LengthFits(n, v[..p]) && (v[p] == ' ' || Decimal(n, v[..p]) <= 1844674407370955160)
    ensures LengthFits(n, v[..p + 1])
  {
    forall i | 0 <= i < p + 1 && v[i] != ' '
      ensures Decimal(n, v[..p + 1][..i]) <= 1844674407370955160
    {
      assert v[..p + 1][..i] == v[..i];
      assert i < p ==> v[..p][..i] == v[..i];
    }
  }

  // ---------------------------------------------------------------- chunk sizes

  /** Whether every digit of v passes the guard when the number before v is n. */
  predicate SizeFits(n: nat, v: seq<char>)
    requires forall i :: 0 <= i < |v| ==> IsHex(v[i])
  {
    forall i :: 0 <= i < |v| ==> Hexadecimal(n, v[..i]) <= 0xFFF_FFFF_FFFF_FFFE
  }

  lemma SizeByte(cfg: Settings, c: Core, ch: char)
    requires c.state.ChunkSize? && IsHex(ch)
    ensures var o := Dispatch(cfg, c, ch);
            if c.contentLength <= 0xFFF_FFFF_FFFF_FFFE then
              o == To(c.(contentLength := c.contentLength * 16 + Unhex(ch)), ChunkSize)
            else o.act.Fail? && o.core.errno.InvalidContentLength?
  {
    ChunkGuard(c.contentLength, Unhex(ch));
  }

  /**
   * Reading the digits of a chunk size after the first: the size is accepted exactly when every digit fits, and then
   * the parser holds its mathematical value, below ULLONG_MAX.
   */
  lemma {:induction false} SizeValue(cfg: Settings, c: Core, v: seq<char>, p: nat, n: nat)
    requires p <= |v| && forall i :: 0 <= i < |v| ==> IsHex(v[i])
    requires c.state.ChunkSize?
    requires SizeFits(n, v[..p]) && c.contentLength == Hexadecimal(n, v[..p]) < ULLONG_MAX
    ensures var f := Feed(cfg, c, v, p);
            if SizeFits(n, v) then
              f == Fed(c.(contentLength := Hexadecimal(n, v)), |v|, [], false) && Hexadecimal(n, v) < ULLONG_MAX
            else f.stopped && f.core.errno.InvalidContentLength?
    decreases |v| - p
  {
    hide Dispatch, Feed, Slips, SlipsAt, Unhex;
    if p == |v| {
      NothingLeft(cfg, c, v);
      assert v[..p] == v;
    } else {
      SizeByte(cfg, c, v[p]);
      assert v[..p + 1][..p] == v[..p];
      var o := Dispatch(cfg, c, v[p]);
      if o.act.Fail? {
        FeedFail(cfg, c, v, p);
      } else {
        FeedAdvance(cfg, c, v, p);
        ChunkGuard(c.contentLength, Unhex(v[p]));
        SizeFitsStep(n, v, p);
        SizeValue(cfg, o.core, v, p + 1, n);
      }
    }
  }

  lemma SizeStart(cfg: Settings, c: Core, ch: char)
    requires c.state.ChunkSizeStart? && IsHex(ch)
    ensures Dispatch(cfg, c, ch) == To(c.(contentLength := Unhex(ch)), ChunkSize)
  {
  }

  /** The same hexadecimal digits, in v in either case and in w in lower case. */
  predicate SameDigits(v: seq<char>, w: seq<char>) {
    |v| == |w| &&
    forall i :: 0 <= i < |v| ==>
      exists d: nat :: d < 16 && w[i] == LOWER_HEX[d] && (v[i] == LOWER_HEX[d] || v[i] == UPPER_HEX[d])
  }

  /** The case of the digits makes no difference to a number, nor to whether it fits. */
  lemma {:induction false} SameNumber(n: nat, v: seq<char>, w: seq<char>)
    requires SameDigits(v, w)
    ensures forall i :: 0 <= i < |v| ==> IsHex(v[i]) && IsHex(w[i])
    ensures Hexadecimal(n, v) == Hexadecimal(n, w) && (SizeFits(n, v) <==> SizeFits(n, w))
  {
    forall i | 0 <= i < |v|
      ensures IsHex(v[i]) && Unhex(v[i]) == Unhex(w[i])
    {
      var d: nat :| d < 16 && w[i] == LOWER_HEX[d] && (v[i] == LOWER_HEX[d] || v[i] == UPPER_HEX[d]);
      HexTable(v[i], d);
      HexTable(w[i], d);
    }
    SameValues(n, v, w);
    forall i | 0 <= i < |v|
      ensures Hexadecimal(n, v[..i]) == Hexadecimal(n, w[..i])
    {
      SameValues(n, v[..i], w[..i]);
    }
  }

  lemma {:induction false} SameValues(n: nat, v: seq<char>, w: seq<char>)
    requires |v| == |w| && forall i :: 0 <= i < |v| ==> IsHex(v[i]) && IsHex(w[i]) && Unhex(v[i]) == Unhex(w[i])
    ensures Hexadecimal(n, v) == Hexadecimal(n, w)
  {
    hide Unhex;
    if v != [] {
      SameValues(n, v[..|v| - 1], w[..|w| - 1]);
    }
  }

  /** All the digits of a chunk size: accepted exactly when every one fits, and then the parser holds their value. */
  lemma WholeSize(cfg: Settings, c: Core, v: seq<char>)
    requires c.state.ChunkSizeStart? && v != [] && forall i :: 0 <= i < |v| ==> IsHex(v[i])
    ensures var f := Feed(cfg, c, v, 0);
            if SizeFits(0, v) then
              f == Fed(c.(state := ChunkSize, contentLength := Hexadecimal(0, v)), |v|, [], false) &&
              Hexadecimal(0, v) < ULLONG_MAX
            else f.stopped && f.core.errno.InvalidContentLength?
  {
    hide Dispatch, Feed, Slips, SlipsAt, Unhex;
    SizeStart(cfg, c, v[0]);
    FeedAdvance(cfg, c, v, 0);
    FirstHexDigit(v);
    SizeValue(cfg, c.(state := ChunkSize, contentLength := Unhex(v[0])), v, 1, 0);
    AfterNothing(Feed(cfg, c.(state := ChunkSize, contentLength := Unhex(v[0])), v, 1));
  }

  lemma FirstHexDigit(v: seq<char>)
    requires v != [] && IsHex(v[0])
    ensures SizeFits(0, v[..1]) && Hexadecimal(0, v[..1]) == Unhex(v[0])
  {
    assert v[..1] == [v[0]] && [v[0]][..0] == [];
    assert Hexadecimal(0, [v[0]]) == Hexadecimal(0, []) * 16 + Unhex(v[0]);
  }

  lemma SizeFitsStep(n: nat, v: seq<char>, p: nat)
    requires p < |v| && forall i :: 0 <= i < |v| ==> IsHex(v[i])
    requires SizeFits(n, v[..p]) && Hexadecimal(n, v[..p]) <= 0xFFF_FFFF_FFFF_FFFE
    ensures SizeFits(n, v[..p + 1])
  {
    var w := v[..p + 1];
    forall i | 0 <= i < |w|
      ensures Hexadecimal(n, w[..i]) <= 0xFFF_FFFF_FFFF_FFFE
    {
      assert w[..i] == v[..i];
      assert i < p ==> v[..p][..i] == v[..i];
    }
  }
}
