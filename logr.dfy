/** The three word-level patterns of parse_log.py: logr (lines 20-26),
    logr-special (lines 29-34) and grafana-logr (lines 50-55).  They differ
    only in the timestamp and share the rest:

      ^\s*(<timestamp>)\s+([A-Z]+)\s+(\S+)\s+(.*?)\s*$

    with <timestamp> one of
      logr          \d{4}\-\d{2}\-\d{2}T\d{2}:\d{2}:\d{2}\.\d{3}Z
      logr-special  \d{1}\.\d+e\+\d{2}
      grafana-logr  \d{4}\-\d{2}\-\d{2}T\d{2}:\d{2}:\d{2}Z */
module Logr {
  import opened Text

  datatype Stamp =
    | IsoMillis   // logr
    | Epoch       // logr-special
    | IsoSeconds  // grafana-logr

  const IsoMillisShape: string := "####-##-##T##:##:##.###Z"
  const IsoSecondsShape: string := "####-##-##T##:##:##Z"

  /** `s[i..j]` is a timestamp of the given kind. */
  predicate StampAt(s: string, i: nat, j: nat, stamp: Stamp) {
    match stamp
    case IsoMillis => j == i + 24 && FitsAt(s, i, IsoMillisShape)
    case IsoSeconds => j == i + 20 && FitsAt(s, i, IsoSecondsShape)
    case Epoch =>
      // d.<digits>e+dd: the mantissa digits are s[i+2..j-4]
      && i + 2 < j - 4 && FitsAt(s, i, "#.")
      && Run(s, i + 2, j - 4, Digit) && FitsAt(s, j - 4, "e+##")
  }

  /** Where the timestamp that starts at `i` ends, if there is one. */
  function StampEnd(s: string, i: nat, stamp: Stamp): (r: Option<nat>)
    ensures r.Some? ==> StampAt(s, i, r.value, stamp)
    ensures forall j: nat :: StampAt(s, i, j, stamp) ==> r == Some(j)
  {
    match stamp
    case IsoMillis => if FitsAt(s, i, IsoMillisShape) then Some(i + 24) else None
    case IsoSeconds => if FitsAt(s, i, IsoSecondsShape) then Some(i + 20) else None
    case Epoch =>
      if FitsAt(s, i, "#.") then
        var k := Span(s, i + 2, Digit);
        StampEndEpoch(s, i, k);
        if i + 2 < k && FitsAt(s, k, "e+##") then Some(k + 4) else None
      else None
  }

  /** The mantissa digits of an epoch timestamp are the greedy digit run. */
  lemma StampEndEpoch(s: string, i: nat, k: nat)
    requires i + 2 <= |s| && k == Span(s, i + 2, Digit)
    ensures forall j: nat :: StampAt(s, i, j, Epoch) ==> j == k + 4
  {
    forall j: nat | StampAt(s, i, j, Epoch) ensures j == k + 4 {
      assert Fits(s[(j - 4) + 0], "e+##"[0]);
      SpanUnique(s, i + 2, j - 4, Digit);
    }
  }

  /** Positions of the pieces of a line: s[..lead] whitespace,
      s[lead..stampEnd] the timestamp (group 1), whitespace,
      s[level..levelEnd] the level (group 2), whitespace,
      s[source..sourceEnd] the source (group 3), whitespace,
      s[msg..msgEnd] the message (group 4), s[msgEnd..] trailing whitespace. */
  datatype Split = Split(lead: nat, stampEnd: nat, level: nat, levelEnd: nat,
                         source: nat, sourceEnd: nat, msg: nat, msgEnd: nat)

  /** `sp` cuts `s` into the pieces of the pattern with the given timestamp. */
  predicate IsSplit(s: string, stamp: Stamp, sp: Split) {
    && Run(s, 0, sp.lead, Space)
    && StampAt(s, sp.lead, sp.stampEnd, stamp)
    && sp.stampEnd < sp.level && Run(s, sp.stampEnd, sp.level, Space)
    && sp.level < sp.levelEnd && Run(s, sp.level, sp.levelEnd, Upper)
    && sp.levelEnd < sp.source && Run(s, sp.levelEnd, sp.source, Space)
    && sp.source < sp.sourceEnd && Run(s, sp.source, sp.sourceEnd, NonSpace)
    && sp.sourceEnd < sp.msg && Run(s, sp.sourceEnd, sp.msg, Space)
    && Run(s, sp.msg, sp.msgEnd, NotNewline)
    && Run(s, sp.msgEnd, |s|, Space)
  }

  /** Backtracking order: the greedy `\s+` before the message prefers a later
      message start, then the lazy `(.*?)` prefers a shorter message. */
  predicate Preferred(a: Split, b: Split) {
    a.msg > b.msg || (a.msg == b.msg && a.msgEnd <= b.msgEnd)
  }

  /** The cut `re.search` returns for the pattern with the given timestamp
      (`MatchSound` shows it is a cut). */
  function Match(s: string, stamp: Stamp): (r: Option<Split>)
    ensures r.Some? ==> r.value.level <= r.value.levelEnd <= |s| && r.value.msg <= r.value.msgEnd <= |s|
  {
    var lead := Span(s, 0, Space);
    match StampEnd(s, lead, stamp)
    case None => None
    case Some(stampEnd) =>
      var level := Span(s, stampEnd, Space);
      var levelEnd := Span(s, level, Upper);
      var source := Span(s, levelEnd, Space);
      var sourceEnd := Span(s, source, NonSpace);
      var msg := Span(s, sourceEnd, Space);
      var msgEnd := LazyEnd(s, msg);
      if stampEnd < level < levelEnd < source < sourceEnd < msg && Run(s, msg, msgEnd, NotNewline)
      then Some(Split(lead, stampEnd, level, levelEnd, source, sourceEnd, msg, msgEnd))
      else None
  }

  /** What `Match` returns is a cut of the line. */
  lemma MatchSound(s: string, stamp: Stamp)
    ensures Match(s, stamp).Some? ==> IsSplit(s, stamp, Match(s, stamp).value)
  {
  }

  /** The pieces before the message are the greedy runs. */
  lemma PrefixUnique(s: string, stamp: Stamp, sp: Split)
    requires IsSplit(s, stamp, sp)
    ensures sp.lead == Span(s, 0, Space)
    ensures sp.level == Span(s, sp.stampEnd, Space)
    ensures sp.levelEnd == Span(s, sp.level, Upper)
    ensures sp.source == Span(s, sp.levelEnd, Space)
    ensures sp.sourceEnd == Span(s, sp.source, NonSpace)
    ensures sp.msg <= Span(s, sp.sourceEnd, Space)
  {
    assert Fits(s[sp.lead + 0], "#"[0]) by {
      match stamp
      case IsoMillis => assert Fits(s[sp.lead + 0], IsoMillisShape[0]);
      case IsoSeconds => assert Fits(s[sp.lead + 0], IsoSecondsShape[0]);
      case Epoch => assert Fits(s[sp.lead + 0], "#."[0]);
    }
    SpanUnique(s, 0, sp.lead, Space);
    SpanUnique(s, sp.stampEnd, sp.level, Space);
    SpanUnique(s, sp.level, sp.levelEnd, Upper);
    SpanUnique(s, sp.levelEnd, sp.source, Space);
    SpanUnique(s, sp.source, sp.sourceEnd, NonSpace);
    SpanMaximal(s, sp.sourceEnd, sp.msg, Space);
  }

  /** Every cut that exists is found, and the one returned is preferred to
      it: backtracking into the `\s+` before the message never finds a match
      the greedy choice missed. */
  lemma MatchComplete(s: string, stamp: Stamp, sp: Split)
    requires IsSplit(s, stamp, sp)
    ensures Match(s, stamp).Some? && Preferred(Match(s, stamp).value, sp)
  {
    PrefixUnique(s, stamp, sp);
    var msg := Span(s, sp.sourceEnd, Space);
    var msgEnd := LazyEnd(s, msg);
    if msg < msgEnd {
      // the message ends at the trailing whitespace, which the cut reaches too
      assert msgEnd == TrailStart(s);
      TrailStartLeast(s, sp.msgEnd);
    }
    assert Run(s, msg, msgEnd, NotNewline);
  }

  /** A logr timestamp and a grafana-logr timestamp never start at the same
      place: the first has `.` where the second has `Z`. */
  lemma IsoStampsDisjoint(s: string, i: nat, j: nat, j': nat)
    requires StampAt(s, i, j, IsoMillis)
    ensures !StampAt(s, i, j', IsoSeconds)
  {
    assert s[i + 19] == '.' by {
      assert Fits(s[i + 19], IsoMillisShape[19]);
    }
    assert IsoSecondsShape[19] == 'Z';
  }

  /** So no line matches both the logr and the grafana-logr pattern. */
  lemma LogrGrafanaDisjoint(s: string)
    ensures !(Match(s, IsoMillis).Some? && Match(s, IsoSeconds).Some?)
  {
    if Match(s, IsoMillis).Some? {
      var a := Match(s, IsoMillis).value;
      MatchSound(s, IsoMillis);
      IsoStampsDisjoint(s, a.lead, a.stampEnd, a.lead + 20);
    }
  }

  /** The message has no whitespace at either end. */
  lemma MessageTrimmed(s: string, stamp: Stamp)
    requires Match(s, stamp).Some?
    ensures var sp := Match(s, stamp).value;
      sp.msg < sp.msgEnd ==> !IsSpace(s[sp.msg]) && !IsSpace(s[sp.msgEnd - 1])
  {
    MatchSound(s, stamp);
  }

  /** What a line with the given timestamp starts with, after leading
      whitespace: a digit, then `.` for an epoch timestamp, or three more
      digits and `-` for an ISO one, whose 20th character tells the two ISO
      kinds apart. */
  predicate Starts(s: string, stamp: Stamp) {
    var lead := Span(s, 0, Space);
    && lead + 1 < |s| && IsDigit(s[lead])
    && (stamp == Epoch ==> s[lead + 1] == '.')
    && (stamp != Epoch ==> lead + 19 < |s| && IsDigit(s[lead + 1]) && s[lead + 4] == '-')
    && (stamp == IsoMillis ==> s[lead + 19] == '.')
    && (stamp == IsoSeconds ==> s[lead + 19] == 'Z')
  }

  lemma StampStart(s: string, lead: nat, stampEnd: nat, stamp: Stamp)
    requires Run(s, 0, lead, Space) && StampAt(s, lead, stampEnd, stamp)
    ensures lead == Span(s, 0, Space) && Starts(s, stamp)
  {
    match stamp
    case Epoch =>
      assert Fits(s[lead + 0], "#."[0]);
      assert Fits(s[lead + 1], "#."[1]);
      SpanUnique(s, 0, lead, Space);
    case IsoMillis => IsoStart(s, lead, IsoMillisShape);
    case IsoSeconds => IsoStart(s, lead, IsoSecondsShape);
  }

  lemma IsoStart(s: string, lead: nat, shape: string)
    requires Run(s, 0, lead, Space) && 20 <= |shape|
    requires shape[..5] == "####-" && FitsAt(s, lead, shape)
    ensures lead == Span(s, 0, Space) && lead + 19 < |s| && IsDigit(s[lead]) && IsDigit(s[lead + 1])
    ensures s[lead + 4] == '-' && Fits(s[lead + 19], shape[19])
  {
    assert Fits(s[lead + 0], shape[0]);
    assert Fits(s[lead + 1], shape[1]);
    assert Fits(s[lead + 4], shape[4]);
    assert Fits(s[lead + 19], shape[19]);
  }
}
