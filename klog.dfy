/** The klog line pattern (parse_log.py lines 7-18):

      ^\s*(\w)(\d{2})(\d{2})\s(\d{2}):(\d{2}):(\d{2})\.(\d{6})\s+(\d+)\s(.+):(\d+)\]\s(.*?)\s*$

    `IsSplit` says which ways of cutting a line into the pieces of the
    pattern are possible; `Match` computes the one Python's backtracking
    matcher returns, and `MatchComplete` proves that it is found whenever any
    cut exists and that it is the preferred one (greedy file name, lazy
    message). */
module Klog {
  import opened Text

  /** The fixed-width head: level letter, MMDD, one whitespace, HH:MM:SS.ffffff. */
  const Head: string := "@####~##:##:##.######"

  /** Positions of the pieces of a klog line `s`:
      s[..lead] leading whitespace, s[lead..lead+21] the head (s[lead] is group 1),
      s[lead+21..thread] whitespace, s[thread..threadEnd] the thread id,
      s[threadEnd] one whitespace, s[threadEnd+1..colon] the file name,
      s[colon] ':', s[colon+1..lineEnd] the line number, s[lineEnd] ']',
      s[lineEnd+1] one whitespace, s[lineEnd+2..msgEnd] the message (group 11),
      s[msgEnd..] trailing whitespace. */
  datatype Split = Split(lead: nat, thread: nat, threadEnd: nat, colon: nat, lineEnd: nat, msgEnd: nat)

  /** `sp` cuts `s` into the pieces of the klog pattern. */
  predicate IsSplit(s: string, sp: Split) {
    && Run(s, 0, sp.lead, Space)
    && FitsAt(s, sp.lead, Head)
    && sp.lead + 21 < sp.thread && Run(s, sp.lead + 21, sp.thread, Space)
    && sp.thread < sp.threadEnd && Run(s, sp.thread, sp.threadEnd, Digit)
    && sp.threadEnd < |s| && IsSpace(s[sp.threadEnd])
    && sp.threadEnd + 1 < sp.colon && Run(s, sp.threadEnd + 1, sp.colon, NotNewline)
    && sp.colon < |s| && s[sp.colon] == ':'
    && sp.colon + 1 < sp.lineEnd && Run(s, sp.colon + 1, sp.lineEnd, Digit)
    && sp.lineEnd + 1 < |s| && s[sp.lineEnd] == ']' && IsSpace(s[sp.lineEnd + 1])
    && Run(s, sp.lineEnd + 2, sp.msgEnd, NotNewline)
    && Run(s, sp.msgEnd, |s|, Space)
  }

  /** The order in which backtracking tries cuts: the greedy `(.+)` prefers a
      later colon, then the lazy `(.*?)` prefers a shorter message. */
  predicate Preferred(a: Split, b: Split) {
    a.colon > b.colon || (a.colon == b.colon && a.msgEnd <= b.msgEnd)
  }

  /** The part after the file name, `:(\d+)\]\s(.*?)\s*$`, tried with the
      colon at `c`: the line-number end and the message end when it matches. */
  function TailAt(s: string, c: nat): (r: Option<(nat, nat)>)
    ensures r.Some? ==>
      && c < |s| && s[c] == ':'
      && c + 1 < r.value.0 && Run(s, c + 1, r.value.0, Digit)
      && r.value.0 + 1 < |s| && s[r.value.0] == ']' && IsSpace(s[r.value.0 + 1])
      && Run(s, r.value.0 + 2, r.value.1, NotNewline) && Run(s, r.value.1, |s|, Space)
  {
    if c < |s| && s[c] == ':' then
      var lineEnd := Span(s, c + 1, Digit);
      if c + 1 < lineEnd && lineEnd + 1 < |s| && s[lineEnd] == ']' && IsSpace(s[lineEnd + 1]) then
        var msgEnd := LazyEnd(s, lineEnd + 2);
        if Run(s, lineEnd + 2, msgEnd, NotNewline) then Some((lineEnd, msgEnd)) else None
      else None
    else None
  }

  /** Greedy `(.+)` followed by the tail: the largest colon position in
      `(lo, hi]` at which the tail matches. */
  function LastColon(s: string, lo: nat, hi: nat): (r: Option<nat>)
    ensures r.Some? ==> lo < r.value <= hi && TailAt(s, r.value).Some?
    ensures forall c :: lo < c <= hi && TailAt(s, c).Some? ==> r.Some? && c <= r.value
    decreases hi
  {
    if hi <= lo then None
    else if TailAt(s, hi).Some? then Some(hi)
    else LastColon(s, lo, hi - 1)
  }

  /** The cut `re.search(klog_regex, s)` returns, or None when it finds none
      (`MatchSound` shows it is a cut). */
  function Match(s: string): (r: Option<Split>)
    ensures r.Some? ==> r.value.lead < |s| && r.value.lineEnd + 2 <= r.value.msgEnd <= |s|
  {
    var lead := Span(s, 0, Space);
    if !FitsAt(s, lead, Head) then None
    else
      var thread := Span(s, lead + 21, Space);
      if thread == lead + 21 then None
      else
        var threadEnd := Span(s, thread, Digit);
        if threadEnd == thread || threadEnd == |s| || !IsSpace(s[threadEnd]) then None
        else
          var nameEnd := Span(s, threadEnd + 1, NotNewline);
          match LastColon(s, threadEnd + 1, nameEnd)
          case None => None
          case Some(colon) =>
            var tail := TailAt(s, colon).value;
            Some(Split(lead, thread, threadEnd, colon, tail.0, tail.1))
  }

  /** What `Match` returns is a cut of the line. */
  lemma MatchSound(s: string)
    ensures Match(s).Some? ==> IsSplit(s, Match(s).value)
  {
  }

  /** With the colon of a cut, the tail matches, ending the message no later
      than the cut does. */
  lemma TailComplete(s: string, sp: Split)
    requires IsSplit(s, sp)
    ensures TailAt(s, sp.colon) == Some((sp.lineEnd, LazyEnd(s, sp.lineEnd + 2)))
    ensures LazyEnd(s, sp.lineEnd + 2) <= sp.msgEnd
  {
    SpanUnique(s, sp.colon + 1, sp.lineEnd, Digit);
  }

  /** Every cut that exists is found, and the one returned is preferred to it. */
  lemma MatchComplete(s: string, sp: Split)
    requires IsSplit(s, sp)
    ensures Match(s).Some? && Preferred(Match(s).value, sp)
  {
    assert Head[0] == '@' && Fits(s[sp.lead + 0], Head[0]);
    SpanUnique(s, 0, sp.lead, Space);
    SpanUnique(s, sp.lead + 21, sp.thread, Space);
    SpanUnique(s, sp.thread, sp.threadEnd, Digit);
    SpanMaximal(s, sp.threadEnd + 1, sp.colon, NotNewline);
    TailComplete(s, sp);
  }

  /** The message has no whitespace at its end: the lazy message stops
      where the trailing whitespace starts. */
  lemma MessageTrimmed(s: string)
    requires Match(s).Some?
    ensures var sp := Match(s).value;
      sp.lineEnd + 2 < sp.msgEnd ==> !IsSpace(s[sp.msgEnd - 1])
  {
    MatchSound(s);
  }

  /** What a klog line starts with, after leading whitespace: a word
      character and four digits. */
  predicate Starts(s: string) {
    var lead := Span(s, 0, Space);
    lead + 4 < |s| && In(s[lead], Word) && IsDigit(s[lead + 1]) && IsDigit(s[lead + 4])
  }

  lemma SplitStart(s: string, sp: Split)
    requires IsSplit(s, sp)
    ensures sp.lead == Span(s, 0, Space) && Starts(s)
  {
    var lead := sp.lead;
    assert Fits(s[lead + 0], Head[0]);
    SpanUnique(s, 0, lead, Space);
    assert Fits(s[lead + 1], Head[1]);
    assert Fits(s[lead + 4], Head[4]);
  }
}
