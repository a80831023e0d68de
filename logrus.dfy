/** The logrus line pattern (parse_log.py lines 38-45):

      ^\s*time="(\d{4}\-\d{2}\-\d{2}T\d{2}:\d{2}:\d{2}Z)"\s+level=([a-z]+)\s+msg="(.*?[^\\])".*\s+(src="(.*?)")?\s*$

    The message (group 3) is lazy: it is the shortest text after `msg="`
    that does not end in a backslash, is followed by a quote, and after
    which the rest of the line can still be matched. */
module Logrus {
  import opened Text

  const Stamp: string := "time=\"####-##-##T##:##:##Z\""
  const LevelKey: string := "level="
  const MsgKey: string := "msg=\""
  const SrcKey: string := "src=\""

  /** How the part after the message's closing quote,
      `.*\s+(src="(.*?)")?\s*$`, covers the rest of the line:
      s[r..gap] is `.*`, s[gap..gapEnd] is `\s+`, and `src` is the position of
      the closing quote of the optional `src="..."` field. */
  datatype Rest = Rest(gap: nat, gapEnd: nat, src: Option<nat>)

  predicate IsRest(s: string, r: nat, rest: Rest) {
    && Run(s, r, rest.gap, NotNewline)
    && rest.gap < rest.gapEnd && Run(s, rest.gap, rest.gapEnd, Space)
    && match rest.src
       case None => Run(s, rest.gapEnd, |s|, Space)
       case Some(q) =>
         && FitsAt(s, rest.gapEnd, SrcKey) && Run(s, rest.gapEnd + 5, q, NotNewline)
         && q < |s| && s[q] == '"' && Run(s, q + 1, |s|, Space)
  }

  /** The optional `src="(.*?)"` followed by `\s*$`, tried at `b`: the
      position of its closing quote. */
  function SrcAt(s: string, b: nat): (r: Option<nat>)
    ensures r.Some? ==>
      && FitsAt(s, b, SrcKey) && Run(s, b + 5, r.value, NotNewline)
      && r.value < |s| && s[r.value] == '"' && Run(s, r.value + 1, |s|, Space)
  {
    if FitsAt(s, b, SrcKey) then
      var t := TrailStart(s);
      if b + 5 < t && s[t - 1] == '"' && Run(s, b + 5, t - 1, NotNewline) then Some(t - 1) else None
    else None
  }

  /** The closing quote of `src="..."` is the last character before the
      trailing whitespace, so `SrcAt` finds it whenever there is one. */
  lemma SrcAtComplete(s: string, b: nat, q: nat)
    requires FitsAt(s, b, SrcKey) && Run(s, b + 5, q, NotNewline)
    requires q < |s| && s[q] == '"' && Run(s, q + 1, |s|, Space)
    ensures SrcAt(s, b) == Some(q)
  {
    TrailStartLeast(s, q + 1);
  }

  /** `\s+(src="(.*?)")?\s*$` tried at `a`. */
  function TailAt(s: string, a: nat): (r: Option<Rest>)
    ensures r.Some? ==> r.value.gap == a && IsRest(s, a, r.value)
  {
    if a < |s| && IsSpace(s[a]) then
      var b := Span(s, a, Space);
      match SrcAt(s, b)
      case Some(q) => Some(Rest(a, b, Some(q)))
      case None => if b == |s| then Some(Rest(a, b, None)) else None
    else None
  }

  lemma TailAtComplete(s: string, r: nat, rest: Rest)
    requires IsRest(s, r, rest)
    ensures TailAt(s, rest.gap).Some?
  {
    match rest.src
    case None =>
      SpanMaximal(s, rest.gap, |s|, Space);
    case Some(q) =>
      assert Fits(s[rest.gapEnd + 0], SrcKey[0]);
      SpanUnique(s, rest.gap, rest.gapEnd, Space);
      SrcAtComplete(s, rest.gapEnd, q);
  }

  /** The greedy `.*` after the message: tries the gap from `a` down to `r`. */
  function GapSearch(s: string, r: nat, a: nat): (res: Option<Rest>)
    requires Run(s, r, a, NotNewline)
    ensures res.Some? ==> IsRest(s, r, res.value)
    ensures forall a' :: r <= a' <= a && TailAt(s, a').Some? ==> res.Some?
    decreases a
  {
    match TailAt(s, a)
    case Some(rest) => Some(rest)
    case None => if a == r then None else GapSearch(s, r, a - 1)
  }

  /** GapSearch tries the gaps from the top down, so it stops at the latest
      one at which the tail matches. */
  lemma {:induction false} GapSearchLatest(s: string, r: nat, a: nat, a': nat)
    requires Run(s, r, a, NotNewline) && r <= a' <= a && TailAt(s, a').Some?
    ensures GapSearch(s, r, a).Some? && a' <= GapSearch(s, r, a).value.gap
    decreases a
  {
    if TailAt(s, a).None? {
      assert a' < a;
      GapSearchLatest(s, r, a - 1, a');
      assert GapSearch(s, r, a) == GapSearch(s, r, a - 1);
    }
  }

  /** `.*\s+(src="(.*?)")?\s*$` from `r`, the part after the message. */
  function RestFrom(s: string, r: nat): (res: Option<Rest>)
    requires r <= |s|
    ensures res.Some? ==> IsRest(s, r, res.value)
  {
    GapSearch(s, r, Span(s, r, NotNewline))
  }

  lemma RestFromComplete(s: string, r: nat, rest: Rest)
    requires IsRest(s, r, rest)
    ensures RestFrom(s, r).Some?
  {
    SpanMaximal(s, r, rest.gap, NotNewline);
    TailAtComplete(s, r, rest);
  }

  /** The gap RestFrom finds is the latest of all: the greedy `.*` tries
      the longest stretch first. */
  lemma RestFromLatest(s: string, r: nat, rest: Rest)
    requires IsRest(s, r, rest)
    ensures RestFrom(s, r).Some? && rest.gap <= RestFrom(s, r).value.gap
  {
    SpanMaximal(s, r, rest.gap, NotNewline);
    TailAtComplete(s, r, rest);
    GapSearchLatest(s, r, Span(s, r, NotNewline), rest.gap);
  }

  /** The message may close at `close`: `[^\\]` before it, `"` at it, and the
      rest of the line matches after it. */
  predicate CloseOk(s: string, close: nat) {
    0 < close < |s| && s[close - 1] != '\\' && s[close] == '"' && RestFrom(s, close + 1).Some?
  }

  /** The lazy `(.*?[^\\])"`: the first closing position in `[close, hi]`. */
  function FirstClose(s: string, close: nat, hi: nat): (r: Option<nat>)
    ensures r.Some? ==> close <= r.value <= hi && CloseOk(s, r.value)
    ensures forall c :: close <= c <= hi && CloseOk(s, c) ==> r.Some? && r.value <= c
    decreases hi + 1 - close
  {
    if hi < close then None
    else if CloseOk(s, close) then Some(close)
    else FirstClose(s, close + 1, hi)
  }

  /** Positions of the pieces of a logrus line: s[..lead] whitespace,
      s[lead..lead+27] `time="..."`, whitespace, s[key..key+6] `level=`,
      s[key+6..levelEnd] the level (group 2), whitespace, s[msgKey..msgKey+5]
      `msg="`, s[msgKey+5..close] the message (group 3), s[close] its closing
      quote, and `rest` the remainder. */
  datatype Split = Split(lead: nat, key: nat, levelEnd: nat, msgKey: nat, close: nat, rest: Rest)

  /** The part of the line before the message: `^\s*time="..."\s+level=([a-z]+)\s+msg="`. */
  predicate IsHead(s: string, lead: nat, key: nat, levelEnd: nat, msgKey: nat) {
    && Run(s, 0, lead, Space) && FitsAt(s, lead, Stamp)
    && lead + 27 < key && Run(s, lead + 27, key, Space) && FitsAt(s, key, LevelKey)
    && key + 6 < levelEnd && Run(s, key + 6, levelEnd, LowerCase)
    && levelEnd < msgKey && Run(s, levelEnd, msgKey, Space) && FitsAt(s, msgKey, MsgKey)
  }

  /** `(.*?[^\\])"` with the message in s[body..close]. */
  predicate IsMessage(s: string, body: nat, close: nat) {
    body < close < |s| && Run(s, body, close - 1, NotNewline)
    && s[close - 1] != '\\' && s[close] == '"'
  }

  predicate IsSplit(s: string, sp: Split) {
    && IsHead(s, sp.lead, sp.key, sp.levelEnd, sp.msgKey)
    && IsMessage(s, sp.msgKey + 5, sp.close)
    && IsRest(s, sp.close + 1, sp.rest)
  }

  /** Backtracking order: the lazy message prefers an earlier closing quote.
      Among cuts with the same quote the regex takes the latest gap, which
      is what `RestFrom` finds (`RestFromLatest`); parse_log reads only
      groups 2 and 3, so the order compares only the quote. */
  predicate Preferred(a: Split, b: Split) {
    a.close <= b.close
  }

  /** The head is matched greedily and has at most one match. */
  function HeadOf(s: string): (r: Option<(nat, nat, nat, nat)>)
    ensures r.Some? ==> IsHead(s, r.value.0, r.value.1, r.value.2, r.value.3)
  {
    var lead := Span(s, 0, Space);
    if !FitsAt(s, lead, Stamp) then None
    else
      var key := Span(s, lead + 27, Space);
      if key == lead + 27 || !FitsAt(s, key, LevelKey) then None
      else
        var levelEnd := Span(s, key + 6, LowerCase);
        var msgKey := Span(s, levelEnd, Space);
        if levelEnd == key + 6 || msgKey == levelEnd || !FitsAt(s, msgKey, MsgKey) then None
        else Some((lead, key, levelEnd, msgKey))
  }

  lemma HeadOfComplete(s: string, lead: nat, key: nat, levelEnd: nat, msgKey: nat)
    requires IsHead(s, lead, key, levelEnd, msgKey)
    ensures HeadOf(s) == Some((lead, key, levelEnd, msgKey))
  {
    assert Fits(s[lead + 0], Stamp[0]);
    SpanUnique(s, 0, lead, Space);
    assert Fits(s[key + 0], LevelKey[0]);
    SpanUnique(s, lead + 27, key, Space);
    SpanUnique(s, key + 6, levelEnd, LowerCase);
    assert Fits(s[msgKey + 0], MsgKey[0]);
    SpanUnique(s, levelEnd, msgKey, Space);
  }

  /** The message found by the lazy search from `body`. */
  function MessageClose(s: string, body: nat): (r: Option<nat>)
    requires body <= |s|
    ensures r.Some? ==> IsMessage(s, body, r.value) && CloseOk(s, r.value)
  {
    FirstClose(s, body + 1, Span(s, body, NotNewline) + 1)
  }

  /** No message that can close is shorter than the one found. */
  lemma MessageCloseComplete(s: string, body: nat, c: nat)
    requires IsMessage(s, body, c) && CloseOk(s, c)
    ensures MessageClose(s, body).Some? && MessageClose(s, body).value <= c
  {
    SpanMaximal(s, body, c - 1, NotNewline);
  }

  /** The cut `re.search(logrus_regex, s)` returns (`MatchSound` shows it is one). */
  function Match(s: string): (r: Option<Split>)
    ensures r.Some? ==> r.value.key + 6 <= r.value.levelEnd && r.value.msgKey + 5 <= r.value.close <= |s|
  {
    match HeadOf(s)
    case None => None
    case Some((lead, key, levelEnd, msgKey)) =>
      match MessageClose(s, msgKey + 5)
      case None => None
      case Some(close) => Some(Split(lead, key, levelEnd, msgKey, close, RestFrom(s, close + 1).value))
  }

  /** What `Match` returns is a cut of the line. */
  lemma MatchSound(s: string)
    ensures Match(s).Some? ==> IsSplit(s, Match(s).value)
  {
  }

  /** Every cut that exists is found, and the one returned has the shortest
      message of all cuts. */
  lemma MatchComplete(s: string, sp: Split)
    requires IsSplit(s, sp)
    ensures Match(s).Some? && Preferred(Match(s).value, sp)
  {
    HeadOfComplete(s, sp.lead, sp.key, sp.levelEnd, sp.msgKey);
    MessageCloseOf(s, sp);
  }

  lemma MessageCloseOf(s: string, sp: Split)
    requires IsSplit(s, sp)
    ensures MessageClose(s, sp.msgKey + 5).Some? && MessageClose(s, sp.msgKey + 5).value <= sp.close
  {
    RestFromComplete(s, sp.close + 1, sp.rest);
    MessageCloseComplete(s, sp.msgKey + 5, sp.close);
  }

  /** What a logrus line starts with, after leading whitespace: the `t` of `time="`. */
  predicate Starts(s: string) {
    var lead := Span(s, 0, Space);
    lead < |s| && s[lead] == 't'
  }

  lemma SplitStart(s: string, sp: Split)
    requires IsSplit(s, sp)
    ensures sp.lead == Span(s, 0, Space) && Starts(s)
  {
    var lead := sp.lead;
    assert Fits(s[lead + 0], Stamp[0]);
    SpanUnique(s, 0, lead, Space);
  }
}
