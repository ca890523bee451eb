/**
 * The method matcher: it starts from one method per first letter and switches methods by a table of (method, position,
 * letter). It accepts exactly the known method names, each as itself.
 */
module HttpMethods {
  import opened Basics
  import opened HttpChars
  import opened HttpParserTypes
  import opened HttpParserStep
  import opened HttpParserFeed

  predicate Agrees(m: Method, m': Method, index: nat, ch: char) {
    1 <= index < |MethodString(m')| && index < |MethodString(m)| &&
    MethodString(m')[..index] == MethodString(m)[..index] && MethodString(m')[index] == ch
  }

  lemma PostSwitchAgrees(m: Method, index: nat, ch: char)
    requires NextMethod(m, index, ch).Some? && (m.POST? || m.PUT? || m.PROPFIND? || m.CONNECT?)
    ensures Agrees(m, NextMethod(m, index, ch).value, index, ch)
  {
  }

  lemma MkcolSwitchAgrees(m: Method, index: nat, ch: char)
    requires NextMethod(m, index, ch).Some? && m.MKCOL?
    ensures Agrees(m, NextMethod(m, index, ch).value, index, ch)
  {
  }

  lemma OtherSwitchAgrees(m: Method, index: nat, ch: char)
    requires NextMethod(m, index, ch).Some? && (m.SUBSCRIBE? || m.REPORT? || m.LOCK? || m.UNLOCK?)
    ensures Agrees(m, NextMethod(m, index, ch).value, index, ch)
  {
  }

  /** A switch keeps what was read: both methods agree on the letters before the position. */
  lemma SwitchAgrees(m: Method, index: nat, ch: char)
    requires NextMethod(m, index, ch).Some?
    ensures Agrees(m, NextMethod(m, index, ch).value, index, ch)
  {
    hide Agrees;
    if m.POST? || m.PUT? || m.PROPFIND? || m.CONNECT? {
      PostSwitchAgrees(m, index, ch);
    } else if m.MKCOL? {
      MkcolSwitchAgrees(m, index, ch);
    } else {
      OtherSwitchAgrees(m, index, ch);
    }
  }

  /** The method the matcher holds after i letters of the name of m. */
  function Path(m: Method, i: nat): Method {
    match m
    case PUT => if i < 2 then POST else PUT
    case PATCH => if i < 2 then POST else PATCH
    case PROPFIND => if i < 2 then POST else PROPFIND
    case PROPPATCH => if i < 2 then POST else if i < 5 then PROPFIND else PROPPATCH
    case PURGE => if i < 2 then POST else if i < 3 then PUT else PURGE
    case CHECKOUT => if i < 2 then CONNECT else CHECKOUT
    case COPY => if i < 3 then CONNECT else COPY
    case MOVE => if i < 2 then MKCOL else MOVE
    case MERGE => if i < 2 then MKCOL else MERGE
    case MSEARCH => if i < 2 then MKCOL else MSEARCH
    case MKACTIVITY => if i < 3 then MKCOL else MKACTIVITY
    case MKCALENDAR => if i < 4 then MKCOL else MKCALENDAR
    case SEARCH => if i < 2 then SUBSCRIBE else SEARCH
    case REBIND => if i < 3 then REPORT else REBIND
    case LINK => if i < 2 then LOCK else LINK
    case UNSUBSCRIBE => if i < 3 then UNLOCK else UNSUBSCRIBE
    case UNBIND => if i < 3 then UNLOCK else UNBIND
    case UNLINK => if i < 4 then UNLOCK else UNLINK
    case _ => m
  }

  lemma PathStarts(m: Method)
    ensures FirstMethod(MethodString(m)[0]) == Some(Path(m, 1))
    ensures Path(m, |MethodString(m)|) == m
  {
  }

  predicate IsSwitched(m: Method) {
    match m
    case PUT | PATCH | PROPFIND | PROPPATCH | PURGE | CHECKOUT | COPY | MOVE | MERGE | MSEARCH => true
    case _ => false
  }

  predicate PathTakes(m: Method, i: nat, ch: char) {
    ch != NUL && ch != ' ' &&
    if ch == CharAt(MethodString(Path(m, i)), i) then Path(m, i + 1) == Path(m, i)
    else NextMethod(Path(m, i), i, ch) == Some(Path(m, i + 1))
  }

  lemma PathStepSwitched(m: Method, i: nat)
    requires 1 <= i < |MethodString(m)| && IsSwitched(m)
    ensures PathTakes(m, i, MethodString(m)[i])
  {
  }

  lemma PathStep(m: Method, i: nat)
    requires 1 <= i < |MethodString(m)|
    ensures PathTakes(m, i, MethodString(m)[i])
  {
    if IsSwitched(m) {
      PathStepSwitched(m, i);
    }
  }

  lemma MethodSizes(m: Method)
    ensures 2 < |MethodString(m)| < 20
  {
  }

  lemma MethodByte(cfg: Settings, c: Core, ch: char)
    requires c.state.ReqMethod?
    ensures Dispatch(cfg, c, ch) == MethodChar(c, ch)
  {
  }

  /** Completeness: from the i-th letter on, the name of m and a space lead to m. */
  lemma {:induction false} FeedKnown(cfg: Settings, c: Core, m: Method, i: nat)
    requires c.state.ReqMethod? && 1 <= i <= |MethodString(m)| && c.index == i && c.meth == Path(m, i)
    ensures Feed(cfg, c, MethodString(m) + " ", i) ==
            Fed(c.(state := ReqSpacesBeforeUrl, meth := m, index := |MethodString(m)| + 1), |MethodString(m)| + 1, [],
                false)
    decreases |MethodString(m)| - i
  {
    hide Dispatch, Feed, Slips, SlipsAt, MethodString, NextMethod, Path;
    var w := MethodString(m) + " ";
    MethodSizes(m);
    MethodByte(cfg, c, w[i]);
    if i == |MethodString(m)| {
      PathStarts(m);
      FeedAdvance(cfg, c, w, i);
      NothingLeft(cfg, Dispatch(cfg, c, w[i]).core, w);
    } else {
      PathStep(m, i);
      FeedAdvance(cfg, c, w, i);
      FeedKnown(cfg, Dispatch(cfg, c, w[i]).core, m, i + 1);
    }
  }

  /** Soundness: whatever is accepted up to the space is the name of the method held then. */
  lemma {:induction false} FeedAccepted(cfg: Settings, c: Core, w: seq<char>, i: nat)
    requires c.state.ReqMethod? && c.errno.Ok? && 1 <= i <= |w| && ' ' !in w
    requires c.index == i <= |MethodString(c.meth)| && MethodString(c.meth)[..i] == w[..i]
    ensures var f := Feed(cfg, c, w + " ", i);
            f.stopped ==> f.core.errno.InvalidMethod?
    ensures var f := Feed(cfg, c, w + " ", i);
            !f.stopped ==> f.core.state.ReqSpacesBeforeUrl? && w == MethodString(f.core.meth)
    decreases |w| - i
  {
    hide Dispatch, Feed, Slips, SlipsAt, MethodString, NextMethod;
    var line := w + " ";
    var ch := line[i];
    MethodSizes(c.meth);
    MethodByte(cfg, c, ch);
    var o := Dispatch(cfg, c, ch);
    if o.act.Fail? {
      FeedFail(cfg, c, line, i);
    } else {
      FeedAdvance(cfg, c, line, i);
      if i == |w| {
        NothingLeft(cfg, o.core, line);
        if ch != CharAt(MethodString(c.meth), i) && !o.core.state.ReqSpacesBeforeUrl? {
          SwitchLetters(c.meth, i, ch);
        }
        SpaceEnds(c.meth, i);
        NameEnds(c.meth, i);
      } else {
        assert ch == w[i];
        if o.core.meth != c.meth {
          SwitchAgrees(c.meth, i, ch);
        } else if ch != CharAt(MethodString(c.meth), i) {
          SwitchAgrees(c.meth, i, ch);
        }
        assert w[..i + 1] == w[..i] + [ch];
        assert MethodString(o.core.meth)[..i + 1] == MethodString(o.core.meth)[..i] + [ch];
        FeedAccepted(cfg, o.core, w, i + 1);
      }
    }
  }

  lemma SwitchLetters(m: Method, index: nat, ch: char)
    ensures NextMethod(m, index, ch).Some? ==> ch != ' '
  {
  }

  lemma SpaceEnds(m: Method, i: nat)
    ensures CharAt(MethodString(m), i) != ' '
  {
  }

  lemma NameEnds(m: Method, i: nat)
    ensures CharAt(MethodString(m), i) == NUL ==> |MethodString(m)| <= i
  {
  }

  lemma FirstByte(cfg: Settings, c: Core, ch: char)
    requires c.state.StartReq? && ch != CR && ch != LF && c.errno.Ok?
    ensures var o := Dispatch(cfg, c, ch);
            if FirstMethod(ch).Some? then
              o == Note(Fresh(c).(meth := FirstMethod(ch).value, index := 1), ReqMethod, MessageBegin)
            else o.act.Fail? && o.core.errno.InvalidMethod?
  {
  }

  lemma FirstLetter(m: Method)
    ensures var ch := MethodString(m)[0]; FirstMethod(ch) == Some(Path(m, 1)) && ch != CR && ch != LF && ch != ' '
  {
  }

  predicate IsMethodName(w: seq<char>) {
    exists m: Method :: w == MethodString(m)
  }

  /**
   * A request line's first word w, up to its space: it is accepted exactly when it is the name of a method, and then
   * the parser holds that method; everything else is an invalid method.
   */
  lemma MethodRecognised(cfg: Settings, c: Core, w: seq<char>)
    requires c.state.StartReq? && c.errno.Ok?
    requires w != [] && ' ' !in w && w[0] != CR && w[0] != LF
    ensures var f := Feed(cfg, c, w + " ", 0);
            if IsMethodName(w) then
              !f.stopped && f.core.state.ReqSpacesBeforeUrl? && MethodString(f.core.meth) == w &&
                f.events == [MessageBegin]
            else f.stopped && f.core.errno.InvalidMethod?
  {
    hide Dispatch, Feed, Slips, SlipsAt, MethodString, FirstMethod, Path;
    var line := w + " ";
    FirstByte(cfg, c, line[0]);
    var c1 := Dispatch(cfg, c, line[0]).core;
    if FirstMethod(line[0]).None? {
      FeedFail(cfg, c, line, 0);
      if IsMethodName(w) {
        var m :| w == MethodString(m);
        FirstLetter(m);
      }
    } else {
      FeedAdvance(cfg, c, line, 0);
      MethodSizes(c1.meth);
      assert c1.meth == FirstMethod(line[0]).value && MethodString(c1.meth)[0] == w[0];
      assert MethodString(c1.meth)[..1] == [MethodString(c1.meth)[0]] && w[..1] == [w[0]];
      FeedAccepted(cfg, c1, w, 1);
      if IsMethodName(w) {
        var m :| w == MethodString(m);
        FirstLetter(m);
        MethodSizes(m);
        FeedKnown(cfg, c1, m, 1);
      }
    }
  }

  /** The name of a method and the space behind it: the message begins, and the parser holds the method. */
  lemma FeedMethod(cfg: Settings, c: Core, m: Method)
    requires c.state.StartReq? && c.errno.Ok?
    ensures var n := |MethodString(m)| + 1;
            Feed(cfg, c, MethodString(m) + " ", 0) ==
            Fed(Fresh(c).(state := ReqSpacesBeforeUrl, meth := m, index := n), n, [MessageBegin], false)
  {
    hide Dispatch, Feed, Slips, SlipsAt, MethodString, FirstMethod, Path;
    var line := MethodString(m) + " ";
    MethodSizes(m);
    FirstLetter(m);
    FirstByte(cfg, c, line[0]);
    FeedAdvance(cfg, c, line, 0);
    FeedKnown(cfg, Dispatch(cfg, c, line[0]).core, m, 1);
  }
}
