/** `parse_log` (parse_log.py lines 57-116): the five line formats tried in
    a fixed order, the record each one builds, and the JSON fallback.  The
    result of `json.loads(line)` is an input (`None` when it raises). */
module ParseLog {
  import opened Text
  import opened JsonValue
  import Klog
  import Logr
  import Logrus

  /** What a line format extracts: the level, when the format gives one, and the message. */
  datatype Fields = Fields(level: Option<string>, msg: string)

  /** The line formats. */
  datatype Format = KlogFormat | LogrFormat | LogrSpecialFormat | LogrusFormat | GrafanaLogrFormat

  /** The order in which parse_log tries them. */
  const Registry: seq<Format> := [KlogFormat, LogrFormat, LogrSpecialFormat, LogrusFormat, GrafanaLogrFormat]

  /** klog's level letters; any other letter sets no level. */
  function KlogLevel(letter: char): Option<string> {
    if letter == 'E' then Some("error")
    else if letter == 'I' then Some("info")
    else if letter == 'W' then Some("warn")
    else if letter == 'F' then Some("fatal")
    else None
  }

  /** Fields of a logr, logr-special or grafana-logr line: the level lower-cased. */
  function WordLevelFields(s: string, stamp: Logr.Stamp): Option<Fields> {
    match Logr.Match(s, stamp)
    case None => None
    case Some(sp) => Some(Fields(Some(Lower(s[sp.level..sp.levelEnd])), s[sp.msg..sp.msgEnd]))
  }

  /** The fields one format extracts from a line, or None when its pattern does not match. */
  function Recognize(f: Format, s: string): Option<Fields> {
    match f
    case KlogFormat =>
      (match Klog.Match(s)
       case None => None
       case Some(sp) => Some(Fields(KlogLevel(s[sp.lead]), s[sp.lineEnd + 2..sp.msgEnd])))
    case LogrFormat => WordLevelFields(s, Logr.IsoMillis)
    case LogrSpecialFormat => WordLevelFields(s, Logr.Epoch)
    case LogrusFormat =>
      (match Logrus.Match(s)
       case None => None
       case Some(sp) => Some(Fields(Some(s[sp.key + 6..sp.levelEnd]), s[sp.msgKey + 5..sp.close])))
    case GrafanaLogrFormat => WordLevelFields(s, Logr.IsoSeconds)
  }

  /** The first format in `fs` that recognizes `s`, with its position in `fs`. */
  function FirstMatch(fs: seq<Format>, s: string): (r: Option<(nat, Fields)>)
    ensures r.Some? ==> r.value.0 < |fs| && Recognize(fs[r.value.0], s) == Some(r.value.1)
    ensures r.Some? ==> forall i :: 0 <= i < r.value.0 ==> Recognize(fs[i], s).None?
    ensures r.None? ==> forall i :: 0 <= i < |fs| ==> Recognize(fs[i], s).None?
  {
    if fs == [] then None
    else match Recognize(fs[0], s)
      case Some(f) => Some((0, f))
      case None =>
        match FirstMatch(fs[1..], s)
        case None => None
        case Some((i, f)) => Some((i + 1, f))
  }

  /** The first format that recognizes the line decides: its fields are the
      result, whatever the formats after it would give. */
  lemma FirstMatchAt(fs: seq<Format>, s: string, i: nat)
    requires i < |fs| && Recognize(fs[i], s).Some?
    requires forall j :: 0 <= j < i ==> Recognize(fs[j], s).None?
    ensures FirstMatch(fs, s) == Some((i, Recognize(fs[i], s).value))
  {
  }

  /** The record a recognized line yields: `msg`, and `level` when there is one. */
  function Record(f: Fields): map<string, Json> {
    match f.level
    case Some(l) => map["level" := Str(l), "msg" := Str(f.msg)]
    case None => map["msg" := Str(f.msg)]
  }

  /** parse_log as an ordered registry: the record of the first format that
      recognizes the line, else the JSON fallback, else `{}`. */
  function Classify(line: string, decoded: Option<Json>): Json {
    match FirstMatch(Registry, line)
    case Some((_, f)) => Object(Record(f))
    case None =>
      match decoded
      case None => Object(map[])
      case Some(v) => Normalized(v)
  }

  /** parse_log as written: an if/elif chain over the five patterns, in the
      order of Registry, then the JSON fallback. */
  method ParseLog(line: string, decoded: Option<Json>) returns (logLine: Json)
    ensures logLine == Classify(line, decoded)
  {
    var record: map<string, Json> := map[];
    if Klog.Match(line).Some? {
      record := KlogRecord(line);
      ClassifyKlog(line, decoded);
    } else if Logr.Match(line, Logr.IsoMillis).Some? {
      record := WordLevelRecord(line, Logr.IsoMillis);
      ClassifyLogr(line, decoded);
    } else if Logr.Match(line, Logr.Epoch).Some? {
      record := WordLevelRecord(line, Logr.Epoch);
      ClassifyLogrSpecial(line, decoded);
    } else if Logrus.Match(line).Some? {
      record := LogrusRecord(line);
      ClassifyLogrus(line, decoded);
    } else if Logr.Match(line, Logr.IsoSeconds).Some? {
      record := WordLevelRecord(line, Logr.IsoSeconds);
      ClassifyGrafanaLogr(line, decoded);
    } else {
      ClassifyUnrecognized(line, decoded);
      match decoded
      case None =>
        // json.loads raised: log_line is still the empty dict
        return Object(record);
      case Some(v) =>
        logLine := NormalizeDecoded(v);
        return;
    }
    return Object(record);
  }

  /** The klog branch: the level from the letter table, when the letter is
      in it, then the message. */
  method KlogRecord(line: string) returns (record: map<string, Json>)
    requires Klog.Match(line).Some?
    ensures record == Record(Recognize(KlogFormat, line).value)
  {
    var sp := Klog.Match(line).value;
    var letter := line[sp.lead];
    record := map[];
    if letter == 'E' {
      record := record["level" := Str("error")];
    } else if letter == 'I' {
      record := record["level" := Str("info")];
    } else if letter == 'W' {
      record := record["level" := Str("warn")];
    } else if letter == 'F' {
      record := record["level" := Str("fatal")];
    }
    record := record["msg" := Str(line[sp.lineEnd + 2..sp.msgEnd])];
  }

  /** The logr, logr-special and grafana-logr branches: the level (group 2)
      lower-cased, then the message (group 4). */
  method WordLevelRecord(line: string, stamp: Logr.Stamp) returns (record: map<string, Json>)
    requires Logr.Match(line, stamp).Some?
    ensures record == Record(WordLevelFields(line, stamp).value)
  {
    var sp := Logr.Match(line, stamp).value;
    record := map[];
    record := record["level" := Str(Lower(line[sp.level..sp.levelEnd]))];
    record := record["msg" := Str(line[sp.msg..sp.msgEnd])];
  }

  /** The logrus branch: the level (group 2) as it stands, then the message (group 3). */
  method LogrusRecord(line: string) returns (record: map<string, Json>)
    requires Logrus.Match(line).Some?
    ensures record == Record(Recognize(LogrusFormat, line).value)
  {
    var sp := Logrus.Match(line).value;
    RecognizeLogrus(line);
    record := map[];
    record := record["level" := Str(line[sp.key + 6..sp.levelEnd])];
    record := record["msg" := Str(line[sp.msgKey + 5..sp.close])];
  }

  /** What the logrus format extracts, in terms of the cut. */
  lemma RecognizeLogrus(line: string)
    requires Logrus.Match(line).Some?
    ensures var sp := Logrus.Match(line).value;
      Recognize(LogrusFormat, line) == Some(Fields(Some(line[sp.key + 6..sp.levelEnd]), line[sp.msgKey + 5..sp.close]))
  {
  }

  /* The branches of ParseLog, one lemma each: the guards that lead to a
     branch decide what Classify gives. */

  lemma ClassifyKlog(line: string, decoded: Option<Json>)
    requires Klog.Match(line).Some?
    ensures Classify(line, decoded) == Object(Record(Recognize(KlogFormat, line).value))
  {
    ClassifyAt(line, decoded, 0);
  }

  lemma ClassifyLogr(line: string, decoded: Option<Json>)
    requires Klog.Match(line).None? && Logr.Match(line, Logr.IsoMillis).Some?
    ensures Classify(line, decoded) == Object(Record(WordLevelFields(line, Logr.IsoMillis).value))
  {
    NoneBeforeStep(line, 0);
    ClassifyAt(line, decoded, 1);
  }

  lemma ClassifyLogrSpecial(line: string, decoded: Option<Json>)
    requires Klog.Match(line).None? && Logr.Match(line, Logr.IsoMillis).None?
    requires Logr.Match(line, Logr.Epoch).Some?
    ensures Classify(line, decoded) == Object(Record(WordLevelFields(line, Logr.Epoch).value))
  {
    NoneBeforeStep(line, 0);
    NoneBeforeStep(line, 1);
    ClassifyAt(line, decoded, 2);
  }

  lemma ClassifyLogrus(line: string, decoded: Option<Json>)
    requires Klog.Match(line).None? && Logr.Match(line, Logr.IsoMillis).None? && Logr.Match(line, Logr.Epoch).None?
    requires Logrus.Match(line).Some?
    ensures Classify(line, decoded) == Object(Record(Recognize(LogrusFormat, line).value))
  {
    RecognizeLogrus(line);
    NoneBeforeStep(line, 0);
    NoneBeforeStep(line, 1);
    NoneBeforeStep(line, 2);
    ClassifyAt(line, decoded, 3);
  }

  lemma ClassifyGrafanaLogr(line: string, decoded: Option<Json>)
    requires Klog.Match(line).None? && Logr.Match(line, Logr.IsoMillis).None? && Logr.Match(line, Logr.Epoch).None?
    requires Logrus.Match(line).None? && Logr.Match(line, Logr.IsoSeconds).Some?
    ensures Classify(line, decoded) == Object(Record(WordLevelFields(line, Logr.IsoSeconds).value))
  {
    NoneBeforeStep(line, 0);
    NoneBeforeStep(line, 1);
    NoneBeforeStep(line, 2);
    NoneBeforeStep(line, 3);
    ClassifyAt(line, decoded, 4);
  }

  lemma ClassifyUnrecognized(line: string, decoded: Option<Json>)
    requires Klog.Match(line).None? && Logr.Match(line, Logr.IsoMillis).None? && Logr.Match(line, Logr.Epoch).None?
    requires Logrus.Match(line).None? && Logr.Match(line, Logr.IsoSeconds).None?
    ensures Classify(line, decoded) == (match decoded case None => Object(map[]) case Some(v) => Normalized(v))
  {
    NoneBeforeStep(line, 0);
    NoneBeforeStep(line, 1);
    NoneBeforeStep(line, 2);
    NoneBeforeStep(line, 3);
    NoneBeforeStep(line, 4);
    ClassifyNone(line, decoded);
  }

  /** No format before position `n` of the registry recognizes the line. */
  predicate NoneBefore(line: string, n: nat)
    requires n <= |Registry|
  {
    forall j :: 0 <= j < n ==> Recognize(Registry[j], line).None?
  }

  lemma NoneBeforeStep(line: string, n: nat)
    requires n < |Registry| && NoneBefore(line, n) && Recognize(Registry[n], line).None?
    ensures NoneBefore(line, n + 1)
  {
  }

  /** A line that the format at position `i` of the registry recognizes, and
      no earlier one does, yields that format's record. */
  lemma ClassifyAt(line: string, decoded: Option<Json>, i: nat)
    requires i < |Registry| && Recognize(Registry[i], line).Some?
    requires NoneBefore(line, i)
    ensures Classify(line, decoded) == Object(Record(Recognize(Registry[i], line).value))
  {
    FirstMatchAt(Registry, line, i);
  }

  /** A line that no format recognizes goes to the JSON fallback. */
  lemma ClassifyNone(line: string, decoded: Option<Json>)
    requires NoneBefore(line, |Registry|)
    ensures Classify(line, decoded) == (match decoded case None => Object(map[]) case Some(v) => Normalized(v))
  {
    assert FirstMatch(Registry, line).None?;
  }
}
