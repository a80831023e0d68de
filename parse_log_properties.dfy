/** What parse_log (parse_log.py lines 57-116) promises about the record it
    returns, proved of `Classify` and hence of the method `ParseLog`. */
module ParseLogProperties {
  import opened Text
  import opened JsonValue
  import Klog
  import Logr
  import Logrus
  import opened ParseLog

  /** klog's level letters: E, I, W and F give error, info, warn and fatal;
      any other word character still makes the line a klog line, whose record
      then holds `msg` and no `level`. */
  lemma KlogLevelTable(line: string, decoded: Option<Json>)
    requires Klog.Match(line).Some?
    ensures Classify(line, decoded).Object?
    ensures var sp := Klog.Match(line).value;
      var letter := line[sp.lead];
      var r := Classify(line, decoded).fields;
      && r.Keys <= {"level", "msg"}
      && "msg" in r && r["msg"] == Str(line[sp.lineEnd + 2..sp.msgEnd])
      && ("level" in r <==> letter in "EIWF")
      && (letter == 'E' ==> r["level"] == Str("error"))
      && (letter == 'I' ==> r["level"] == Str("info"))
      && (letter == 'W' ==> r["level"] == Str("warn"))
      && (letter == 'F' ==> r["level"] == Str("fatal"))
  {
    ClassifyKlog(line, decoded);
  }

  /** The klog message: the text after the last `:<digits>]` and one
      whitespace character, on one line, without trailing whitespace. */
  lemma KlogMessage(line: string, sp: Klog.Split)
    requires Klog.IsSplit(line, sp)
    ensures Klog.Match(line).Some?
    ensures var m := Klog.Match(line).value;
      && sp.colon <= m.colon
      && Run(line, m.lineEnd + 2, m.msgEnd, NotNewline)
      && Run(line, m.msgEnd, |line|, Space)
      && (m.lineEnd + 2 < m.msgEnd ==> !IsSpace(line[m.msgEnd - 1]))
  {
    Klog.MatchComplete(line, sp);
    Klog.MatchSound(line);
    Klog.MessageTrimmed(line);
  }

  /** logr, logr-special and grafana-logr: the level is the `[A-Z]+` token
      lower-cased, so a non-empty run of lowercase letters, and the message
      is the rest of the line without whitespace at either end. */
  lemma WordLevelShape(line: string, stamp: Logr.Stamp)
    requires Logr.Match(line, stamp).Some?
    ensures var sp := Logr.Match(line, stamp).value;
      var f := WordLevelFields(line, stamp).value;
      && f.level.Some? && |f.level.value| > 0 && Run(f.level.value, 0, |f.level.value|, LowerCase)
      && f.msg == line[sp.msg..sp.msgEnd] && Run(line, sp.msgEnd, |line|, Space)
      && (|f.msg| > 0 ==> !IsSpace(f.msg[0]) && !IsSpace(f.msg[|f.msg| - 1]))
  {
    var sp := Logr.Match(line, stamp).value;
    Logr.MatchSound(line, stamp);
    Logr.MessageTrimmed(line, stamp);
    LowerOfUpperRun(line[sp.level..sp.levelEnd]);
  }

  /** Lower-casing a run of upper-case letters gives a run of lower-case ones. */
  lemma LowerOfUpperRun(t: string)
    requires Run(t, 0, |t|, Upper)
    ensures Run(Lower(t), 0, |t|, LowerCase)
  {
    forall m | 0 <= m < |t| ensures IsLower(Lower(t)[m]) {
      assert IsUpper(t[m]);
    }
  }

  /** logrus: the level is copied as it stands and is already a non-empty
      lowercase word; the message is non-empty, does not end in a backslash,
      is followed by a quote, and whitespace comes somewhere after that quote. */
  lemma LogrusShape(line: string, sp: Logrus.Split)
    requires Logrus.IsSplit(line, sp)
    ensures var level := line[sp.key + 6..sp.levelEnd];
      |level| > 0 && Run(level, 0, |level|, LowerCase) && Lower(level) == level
    ensures var msg := line[sp.msgKey + 5..sp.close];
      |msg| > 0 && msg[|msg| - 1] != '\\' && line[sp.close] == '"'
    ensures sp.close < sp.rest.gap < |line| && IsSpace(line[sp.rest.gap])
  {
    var level := line[sp.key + 6..sp.levelEnd];
    assert Run(level, 0, |level|, LowerCase);
    LowerFixesLowercase(level);
  }

  /** What the pattern of each format demands of the first characters of
      the line after leading whitespace. */
  predicate StartsAs(f: Format, line: string) {
    match f
    case KlogFormat => Klog.Starts(line)
    case LogrFormat => Logr.Starts(line, Logr.IsoMillis)
    case LogrSpecialFormat => Logr.Starts(line, Logr.Epoch)
    case LogrusFormat => Logrus.Starts(line)
    case GrafanaLogrFormat => Logr.Starts(line, Logr.IsoSeconds)
  }

  /** A format recognizes only lines that start as it demands. */
  lemma RecognizeNeedsStart(f: Format, line: string)
    requires !StartsAs(f, line)
    ensures Recognize(f, line).None?
  {
    match f
    case KlogFormat =>
      if Klog.Match(line).Some? {
        Klog.MatchSound(line);
        Klog.SplitStart(line, Klog.Match(line).value);
        assert false;
      }
    case LogrusFormat =>
      if Logrus.Match(line).Some? {
        Logrus.MatchSound(line);
        Logrus.SplitStart(line, Logrus.Match(line).value);
        assert false;
      }
    case LogrFormat => NoStampMatch(line, Logr.IsoMillis);
    case LogrSpecialFormat => NoStampMatch(line, Logr.Epoch);
    case GrafanaLogrFormat => NoStampMatch(line, Logr.IsoSeconds);
  }

  lemma NoStampMatch(line: string, stamp: Logr.Stamp)
    requires !Logr.Starts(line, stamp)
    ensures Logr.Match(line, stamp).None?
  {
    if Logr.Match(line, stamp).Some? {
      var m := Logr.Match(line, stamp).value;
      Logr.MatchSound(line, stamp);
      Logr.StampStart(line, m.lead, m.stampEnd, stamp);
      assert false;
    }
  }

  /** So the first `n` formats all fail on a line that starts as none of them demands. */
  lemma {:induction false} NoneBeforeByStart(line: string, n: nat)
    requires n <= |Registry|
    requires forall j :: 0 <= j < n ==> !StartsAs(Registry[j], line)
    ensures NoneBefore(line, n)
  {
    if n > 0 {
      NoneBeforeByStart(line, n - 1);
      RecognizeNeedsStart(Registry[n - 1], line);
      NoneBeforeStep(line, n - 1);
    }
  }

  /** Whenever the grafana-logr pattern matches, no earlier pattern does, so
      the grafana-logr branch decides: the branch is reachable. */
  lemma GrafanaLogrDecides(line: string, decoded: Option<Json>)
    requires Logr.Match(line, Logr.IsoSeconds).Some?
    ensures Classify(line, decoded) == Object(Record(WordLevelFields(line, Logr.IsoSeconds).value))
  {
    var g := Logr.Match(line, Logr.IsoSeconds).value;
    Logr.MatchSound(line, Logr.IsoSeconds);
    Logr.StampStart(line, g.lead, g.stampEnd, Logr.IsoSeconds);
    NoneBeforeByStart(line, 4);
    ClassifyAt(line, decoded, 4);
  }

  /** A line whose first non-blank character is `{` matches none of the five
      patterns, so a JSON log line always reaches the JSON fallback. */
  lemma BraceLineIsJson(line: string, decoded: Option<Json>)
    requires Span(line, 0, Space) < |line| && line[Span(line, 0, Space)] == '{'
    ensures Classify(line, decoded) == (match decoded case None => Object(map[]) case Some(v) => Normalized(v))
  {
    NoneBeforeByStart(line, |Registry|);
    ClassifyNone(line, decoded);
  }

  /** What the function promises about `level` does hold in this form: when
      the result has a `level` that is a string, it is lowercase. */
  lemma LevelLowercaseWhenString(line: string, decoded: Option<Json>)
    ensures var r := Classify(line, decoded);
      r.Object? && "level" in r.fields && r.fields["level"].Str? ==> IsLowercase(r.fields["level"].s)
  {
    match FirstMatch(Registry, line)
    case None =>
      if decoded.Some? {
        NormalizedLevelLowercase(decoded.value);
        if !decoded.value.Object? {
          // a non-object is handed back as decoded and has no fields to speak of
          assert !Classify(line, decoded).Object?;
        }
      }
    case Some((i, f)) =>
      FirstMatchLevelLowercase(line, i);
  }

  /** The level each recognized format gives is lowercase. */
  lemma FirstMatchLevelLowercase(line: string, i: nat)
    requires i < |Registry| && Recognize(Registry[i], line).Some?
    ensures var f := Recognize(Registry[i], line).value; f.level.Some? ==> IsLowercase(f.level.value)
  {
    match Registry[i]
    case KlogFormat =>
    case LogrFormat => WordLevelLowercase(line, Logr.IsoMillis);
    case LogrSpecialFormat => WordLevelLowercase(line, Logr.Epoch);
    case GrafanaLogrFormat => WordLevelLowercase(line, Logr.IsoSeconds);
    case LogrusFormat => LogrusLevelLowercase(line);
  }

  lemma WordLevelLowercase(line: string, stamp: Logr.Stamp)
    requires Logr.Match(line, stamp).Some?
    ensures IsLowercase(WordLevelFields(line, stamp).value.level.value)
  {
    var sp := Logr.Match(line, stamp).value;
    LowerIsLowercase(line[sp.level..sp.levelEnd]);
  }

  lemma LogrusLevelLowercase(line: string)
    requires Logrus.Match(line).Some?
    ensures Recognize(LogrusFormat, line).Some? && IsLowercase(Recognize(LogrusFormat, line).value.level.value)
  {
    RecognizeLogrus(line);
    Logrus.MatchSound(line);
    LogrusShape(line, Logrus.Match(line).value);
  }

  /** ...but `level` is not always there, nor always a string: besides a
      klog line with an unmapped letter (UnmappedKlogLetter), a JSON object
      with neither `level` nor `severity`, and a JSON object whose `level` is
      a number, come back as decoded. */
  lemma LevelNotAlwaysThere()
    ensures var line := "{\"msg\": \"x\"}";
      var v := Object(map["msg" := Str("x")]);
      Classify(line, Some(v)) == v
    ensures var line := "{\"level\": 3}";
      var v := Object(map["level" := Num(3.0)]);
      Classify(line, Some(v)) == v
  {
    var line1 := "{\"msg\": \"x\"}";
    assert Span(line1, 0, Space) == 0;
    BraceLineIsJson(line1, Some(Object(map["msg" := Str("x")])));
    var line2 := "{\"level\": 3}";
    assert Span(line2, 0, Space) == 0;
    BraceLineIsJson(line2, Some(Object(map["level" := Num(3.0)])));
  }

  /** A klog line whose letter `X` is not in the table. */
  const UnmappedKlogLine: string := "X0101 00:00:00.000000 1 a:1] m"

  lemma UnmappedKlogLineCut()
    ensures Klog.IsSplit(UnmappedKlogLine, Klog.Split(0, 22, 23, 25, 27, 30))
  {
    assert FitsAt(UnmappedKlogLine, 0, Klog.Head);
  }

  /** The only colon after the thread id is the one before `1]`, and the
      message is `m`. */
  lemma UnmappedKlogLineMatch()
    ensures Klog.Match(UnmappedKlogLine) == Some(Klog.Split(0, 22, 23, 25, 27, 30))
  {
    var line := UnmappedKlogLine;
    UnmappedKlogLineCut();
    Klog.MatchComplete(line, Klog.Split(0, 22, 23, 25, 27, 30));
    Klog.MatchSound(line);
    var m := Klog.Match(line).value;
    assert line[26] != ':' && line[27] != ':' && line[29] != ' ';
    assert m.colon == 25;
    assert m.lead == 0;
    assert m.lineEnd == 27;
    assert m.msgEnd == 30;
  }

  /** The klog pattern takes any word character as the level letter: an
      unmapped one gives a record with `msg` and no `level`. */
  lemma UnmappedKlogLetter()
    ensures Classify(UnmappedKlogLine, None) == Object(map["msg" := Str("m")])
  {
    UnmappedKlogLineMatch();
    KlogLevelTable(UnmappedKlogLine, None);
    assert UnmappedKlogLine[29..30] == "m";
  }

  /** A JSON line with `severity` and no `level`: the key is renamed and
      its value lower-cased. */
  lemma SeverityRenamed()
    ensures var v := Object(map["severity" := Str("ERROR"), "msg" := Str("x")]);
      Classify("{\"severity\":\"ERROR\",\"msg\":\"x\"}", Some(v)) == Object(map["level" := Str("error"), "msg" := Str("x")])
  {
    var line := "{\"severity\":\"ERROR\",\"msg\":\"x\"}";
    assert Span(line, 0, Space) == 0;
    BraceLineIsJson(line, Some(Object(map["severity" := Str("ERROR"), "msg" := Str("x")])));
    SeverityObjectNormalized();
  }

  lemma SeverityObjectNormalized()
    ensures Normalized(Object(map["severity" := Str("ERROR"), "msg" := Str("x")]))
      == Object(map["level" := Str("error"), "msg" := Str("x")])
  {
    var v := Object(map["severity" := Str("ERROR"), "msg" := Str("x")]);
    assert Lower("ERROR") == "error";
    assert Normalized(v).fields.Keys == {"level", "msg"};
  }

  /** Text that is neither one of the five formats nor JSON gives `{}`. */
  lemma PlainTextGivesEmpty()
    ensures Classify("not a log line", None) == Object(map[])
  {
    var line := "not a log line";
    assert Span(line, 0, Space) == 0;
    assert !IsDigit(line[1]);
    NoneBeforeByStart(line, |Registry|);
    ClassifyNone(line, None);
  }

  /** Parsing is stable on the JSON path: normalising the decoded value
      that parse_log returned gives it back unchanged. */
  lemma JsonFallbackIdempotent(line: string, v: Json)
    requires FirstMatch(Registry, line).None?
    ensures Normalized(Classify(line, Some(v))) == Classify(line, Some(v))
  {
    NormalizedIdempotent(v);
  }
}
