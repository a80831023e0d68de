/** JSON values as `json.loads` returns them, and the fallback that
    parse_log.py applies to a decoded line (lines 105-114): move `severity`
    to `level` when there is no `level`, then lower-case `level`.  Decoding
    itself is not modelled; its outcome is an input. */
module JsonValue {
  import opened Text

  /** A decoded JSON value; an object is a Python dict from strings. */
  datatype Json =
    | Null
    | Bool(b: bool)
    | Num(n: real)
    | Str(s: string)
    | Arr(items: seq<Json>)
    | Object(fields: map<string, Json>)

  /** `v.lower()`: only a string has it; on anything else Python raises. */
  function LowerIfStr(v: Json): Json {
    if v.Str? then Str(Lower(v.s)) else v
  }

  /** The keys of an object after the fallback. */
  function NormalizedKeys(keys: set<string>): set<string> {
    if "level" !in keys && "severity" in keys then keys - {"severity"} + {"level"} else keys
  }

  /** What the fallback leaves behind, stated key by key: a value that is not
      an object is returned as decoded; in an object, `severity` is moved to
      `level` when there is no `level`, a string `level` is lower-cased, and
      every other key keeps its value. */
  function Normalized(v: Json): (r: Json)
    ensures !v.Object? ==> r == v
    ensures v.Object? ==> r.Object? && r.fields.Keys == NormalizedKeys(v.fields.Keys)
    ensures v.Object? ==> forall k :: k in r.fields && k != "level" ==> k in v.fields && r.fields[k] == v.fields[k]
    ensures v.Object? && "level" in v.fields ==> r.fields["level"] == LowerIfStr(v.fields["level"])
    ensures v.Object? && "level" !in v.fields && "severity" in v.fields ==>
      r.fields["level"] == LowerIfStr(v.fields["severity"])
  {
    match v
    case Object(m) =>
      if "level" in m then Object(m["level" := LowerIfStr(m["level"])])
      else if "severity" in m then Object((m - {"severity"})["level" := LowerIfStr(m["severity"])])
      else v
    case _ => v
  }

  /** The fallback as parse_log.py runs it, one dict update at a time.  Each
      `return` is a point where Python raises and the `except` hands back
      the value as it stands, partly updated or not. */
  method NormalizeDecoded(decoded: Json) returns (logLine: Json)
    ensures logLine == Normalized(decoded)
  {
    logLine := decoded;
    // `'level' not in log_line` raises TypeError on null, booleans and numbers
    if logLine.Null? || logLine.Bool? || logLine.Num? {
      return;
    }
    // a string or a list answers `in`, but indexing it by a string raises TypeError
    if logLine.Str? || logLine.Arr? {
      return;
    }
    var m := logLine.fields;
    if "level" !in m {
      if "severity" !in m {
        // `log_line['severity']` raises KeyError
        return;
      }
      m := m["level" := m["severity"]];
      logLine := Object(m);
      m := m - {"severity"};
      logLine := Object(m);
    }
    var level := m["level"];
    if !level.Str? {
      // `.lower()` raises AttributeError; the move above stays done
      return;
    }
    m := m["level" := Str(Lower(level.s))];
    logLine := Object(m);
  }

  /** After the fallback, a string `level` is lowercase. */
  lemma NormalizedLevelLowercase(v: Json)
    ensures var r := Normalized(v);
      r.Object? && v.Object? && "level" in r.fields && r.fields["level"].Str? ==>
        IsLowercase(r.fields["level"].s)
  {
    if v.Object? {
      var m := v.fields;
      if "level" in m && m["level"].Str? {
        LowerIsLowercase(m["level"].s);
      } else if "level" !in m && "severity" in m && m["severity"].Str? {
        LowerIsLowercase(m["severity"].s);
      }
    }
  }

  /** Lower-casing twice is lower-casing once. */
  lemma LowerIfStrIdempotent(v: Json)
    ensures LowerIfStr(LowerIfStr(v)) == LowerIfStr(v)
  {
    if v.Str? {
      LowerIsLowercase(v.s);
      LowerFixesLowercase(Lower(v.s));
    }
  }

  /** Running the fallback on its own output changes nothing. */
  lemma NormalizedIdempotent(v: Json)
    ensures Normalized(Normalized(v)) == Normalized(v)
  {
    if v.Object? {
      var m := v.fields;
      if "level" in m {
        LowerIfStrIdempotent(m["level"]);
      } else if "severity" in m {
        LowerIfStrIdempotent(m["severity"]);
      }
    }
  }
}
