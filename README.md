# parse_log, modelled in Dafny

`parse_log(line)` in acto/parse_log/parse_log.py turns one line of an
operator's log into a small record: `{'level': ..., 'msg': ...}`. It tries
five line formats in a fixed order:

1. klog;
2. logr, with an ISO timestamp that has milliseconds;
3. logr-special, with an epoch timestamp in scientific notation;
4. logrus (`time="..." level=... msg="..."`);
5. grafana-logr, with an ISO timestamp that has no fraction.

The first format whose regular expression matches builds the record. A
line that none of them matches is handed to `json.loads`. A decoded object
then has `severity` renamed to `level`, and its `level` lower-cased. If
decoding fails, the result is `{}`.

The project has the following parts:

- `text.dfy` (`Text`) holds the character classes and the greedy and lazy scans that the patterns are built from.
- `klog.dfy` (`Klog`), `logr.dfy` (`Logr`, which covers logr, logr-special and grafana-logr) and `logrus.dfy` (`Logrus`) each model one pattern three ways:
  - `IsSplit` says which ways of cutting a line into the pattern's pieces exist.
  - `Match` computes the cut that Python's backtracking `re.search` returns.
  - `MatchSound` proves that this is a cut.
  - `MatchComplete` proves that a cut is found whenever one exists, and that the one found is the one the backtracking order prefers: greedy quantifiers take as much as they can and lazy ones as little. For logrus that order compares only the closing quote of the message. `Match` takes the rest of the line that `RestFrom` finds after that quote, and `RestFromLatest` proves that this rest has the latest gap, as the greedy `.*` does. Neither the gap nor group 4 (`src`) is read by parse_log.
- `json.dfy` (`JsonValue`) covers the decoded JSON value and the fallback:
  - `Normalized` states the fallback key by key.
  - `NormalizeDecoded` performs it one dict update at a time. It stops where Python raises, so a partial update stays done.
- `parse_log.dfy` (`ParseLog`) holds the function and its specification:
  - `Classify` is the specification: the record of the first format that recognizes the line, else the JSON fallback.
  - `ParseLog` is the if/elif chain as written. Its record is a map updated in place, and it is proved equal to `Classify`.
- `parse_log_properties.dfy` (`ParseLogProperties`) proves what the function promises, plus some things it does not promise.

The result of `json.loads(line)` is an input of type `Option<Json>`, where
`None` means that decoding raised.

All three parts of Python's `re` semantics that matter here are written out:

- the greedy `\s*`, `\s+`, `(.+)`, `.*` and `[A-Z]+`;
- the lazy `(.*?)` followed by `\s*$`;
- the rule that `$` also matches before a final newline.

A lazy message followed by `\s*$` stops where the trailing whitespace of
the line begins. Because `\s` includes the newline, a `$` before a final
newline adds no match.

Where the code and its doc comment differ, the model follows the code. The code behaves as follows:

- A klog line whose letter is not E, I, W or F still matches the klog pattern. Its record holds only `msg` and has no `level`.
- The logr and grafana-logr timestamps differ in the `.ddd` before `Z`, so a grafana-logr line matches no earlier pattern and the grafana-logr branch is reachable.
- A JSON value that is not an object (a list, a string, a number, `null`) comes back as decoded, not as `{}`.
- The message key is `msg`, not `message`.
- The doc comment says that 'level' will always be a lowercase string. That holds only when a `level` is present and is a string (`LevelLowercaseWhenString`). There is no `level` at all for an unmapped klog letter, nor for a JSON object with neither `level` nor `severity`. A JSON `level` that is a number is left as it is (`KlogLevelTable`, `UnmappedKlogLetter`, `LevelNotAlwaysThere`).

## Model

| member | source | states |
|---|---|---|
| Klog.IsSplit | acto/parse_log/parse_log.py:7-18 | the ways to cut a line into the klog pattern's pieces: leading whitespace, letter, `mmdd hh:mm:ss.uuuuuu`, thread id, file name, `:line]`, one whitespace character, message and trailing whitespace |
| Klog.Match | acto/parse_log/parse_log.py:7-18 | the cut of a klog line that `re.search` returns, or None; its positions lie inside the line |
| Klog.LastColon | acto/parse_log/parse_log.py:14-18 | the greedy file name `(.+)`: the largest colon position at which `:(\d+)\]\s(.*?)\s*$` matches, and there is no larger one |
| Klog.TailAt | acto/parse_log/parse_log.py:14-18 | a match of `:(\d+)\]\s(.*?)\s*$` at a colon: digits, `]`, one whitespace character, a message without newline, and trailing whitespace |
| Klog.MatchSound | acto/parse_log/parse_log.py:7-18 | what Match returns is a cut of the line into the pieces of the klog pattern |
| Klog.TailComplete | acto/parse_log/parse_log.py:15-18 | with the colon of any cut, the tail matches and its message ends no later than the cut's |
| Klog.MatchComplete | acto/parse_log/parse_log.py:7-18 | whenever any cut exists, Match finds one, with a colon at least as late and, at the same colon, a message no longer |
| Klog.MessageTrimmed | acto/parse_log/parse_log.py:17-18 | the klog message does not end in whitespace |
| Klog.SplitStart | acto/parse_log/parse_log.py:7-10 | after leading whitespace, a klog line starts with a word character, and its 2nd and 5th characters are digits |
| Logr.StampAt | acto/parse_log/parse_log.py:22 | a timestamp of the given kind between two positions: the ISO stamp with milliseconds (line 22), the epoch stamp `\d{1}\.\d+e\+\d{2}` (line 30) or the ISO stamp without fraction (line 51) |
| Logr.IsSplit | acto/parse_log/parse_log.py:20-26 | the ways to cut a logr, logr-special (lines 29-34) or grafana-logr (lines 50-55) line: leading whitespace, timestamp, whitespace, `[A-Z]+` level, whitespace, `\S+` source, whitespace, message and trailing whitespace |
| Logr.StampEnd | acto/parse_log/parse_log.py:22 | the end of the timestamp that starts at a position, which is unique: fixed width for ISO stamps, the greedy mantissa for epoch stamps (lines 30 and 51 too) |
| Logr.StampEndEpoch | acto/parse_log/parse_log.py:30 | every epoch timestamp `\d{1}\.\d+e\+\d{2}` from a position ends 4 past the greedy digit run |
| Logr.Match | acto/parse_log/parse_log.py:20-26 | the cut of a logr line (likewise logr-special, lines 29-34, and grafana-logr, lines 50-55) that `re.search` returns; level and message positions lie inside the line |
| Logr.MatchSound | acto/parse_log/parse_log.py:20-26 | what Match returns is a cut of the line into timestamp, level, source and message (for all three timestamp kinds) |
| Logr.PrefixUnique | acto/parse_log/parse_log.py:20-25 | in every cut, the leading whitespace, level and source are the greedy runs, and the message starts no later than the greedy `\s+` ends |
| Logr.MatchComplete | acto/parse_log/parse_log.py:20-26 | whenever any cut exists, Match finds one, with a message that starts at least as late and is no longer |
| Logr.IsoStampsDisjoint | acto/parse_log/parse_log.py:22 | a logr timestamp and a grafana-logr timestamp (line 51) never start at the same position: `.` against `Z` at the 20th character |
| Logr.LogrGrafanaDisjoint | acto/parse_log/parse_log.py:50-55 | no line matches both the grafana-logr and the logr (line 22) pattern |
| Logr.MessageTrimmed | acto/parse_log/parse_log.py:25-26 | the logr message has no whitespace at either end |
| Logr.StampStart | acto/parse_log/parse_log.py:22 | after leading whitespace, a line with a timestamp starts with a digit; an epoch stamp (line 30) has `.` next, and an ISO stamp (lines 22 and 51) has `-` 5th and `.` or `Z` 20th |
| Logr.IsoStart | acto/parse_log/parse_log.py:51 | the characters of an ISO timestamp at the fixed positions 1, 2, 5 and 20 |
| Logrus.IsHead | acto/parse_log/parse_log.py:38-42 | the head of a logrus line: leading whitespace, `time="..."`, whitespace, `level=` with a `[a-z]+` level, whitespace and `msg="` |
| Logrus.IsMessage | acto/parse_log/parse_log.py:42 | the message `(.*?[^\\])"`: non-empty, on one line, not ending in a backslash, closed by a quote |
| Logrus.IsRest | acto/parse_log/parse_log.py:43-45 | the rest after the message: `.*`, `\s+`, an optional `src="..."` and trailing whitespace to the end |
| Logrus.IsSplit | acto/parse_log/parse_log.py:38-45 | the ways to cut a line into head, message and rest |
| Logrus.SrcAt | acto/parse_log/parse_log.py:44-45 | a match of `src="(.*?)"\s*$`: the closing quote is followed only by whitespace |
| Logrus.SrcAtComplete | acto/parse_log/parse_log.py:44-45 | every match of the optional `src` field is the one SrcAt finds |
| Logrus.TailAt | acto/parse_log/parse_log.py:44-45 | a match of `\s+(src="(.*?)")?\s*$` at a position |
| Logrus.TailAtComplete | acto/parse_log/parse_log.py:43-45 | every way of covering the end of the line has a gap at which TailAt matches |
| Logrus.GapSearch | acto/parse_log/parse_log.py:43-45 | the greedy `.*` tried from the longest stretch down: a rest of the line is found whenever TailAt matches at any gap in range |
| Logrus.GapSearchLatest | acto/parse_log/parse_log.py:43-45 | the gap GapSearch stops at is the latest one in range at which TailAt matches |
| Logrus.RestFrom | acto/parse_log/parse_log.py:43-45 | a match of `.*\s+(src="(.*?)")?\s*$` from a position |
| Logrus.RestFromComplete | acto/parse_log/parse_log.py:43-45 | whenever the rest of the line can be matched from a position, RestFrom finds it |
| Logrus.RestFromLatest | acto/parse_log/parse_log.py:43-45 | of all ways to match the rest of the line from a position, RestFrom finds one with the latest gap: the greedy `.*` takes as much as it can |
| Logrus.FirstClose | acto/parse_log/parse_log.py:42-45 | the lazy `(.*?[^\\])"`: the first closing position in range after which the line can still be matched, and no earlier one exists |
| Logrus.HeadOf | acto/parse_log/parse_log.py:38-42 | the head `^\s*time="..."\s+level=([a-z]+)\s+msg="`, which is unique |
| Logrus.HeadOfComplete | acto/parse_log/parse_log.py:38-42 | every head is the one HeadOf finds |
| Logrus.MessageClose | acto/parse_log/parse_log.py:42 | the message closes at a quote that follows a non-backslash character, with the rest of the line matching after it |
| Logrus.MessageCloseComplete | acto/parse_log/parse_log.py:42 | no message that can close is shorter than the one MessageClose finds |
| Logrus.Match | acto/parse_log/parse_log.py:38-45 | the cut of a logrus line that `re.search` returns; level and message positions lie inside the line |
| Logrus.MatchSound | acto/parse_log/parse_log.py:38-45 | what Match returns is a cut into head, message and rest |
| Logrus.MatchComplete | acto/parse_log/parse_log.py:38-45 | whenever any cut exists, Match finds one, and its message is the shortest of all cuts (the order compares only the closing quote; RestFromLatest covers the gap after it) |
| Logrus.MessageCloseOf | acto/parse_log/parse_log.py:42-45 | for any cut, the lazy message search succeeds and closes no later than the cut's quote |
| Logrus.SplitStart | acto/parse_log/parse_log.py:38-40 | after leading whitespace, a logrus line starts with `t` |
| ParseLog.KlogLevel | acto/parse_log/parse_log.py:75-82 | the klog letter table: E, I, W and F give error, info, warn and fatal, any other letter no level |
| ParseLog.Recognize | acto/parse_log/parse_log.py:72-103 | the fields each format extracts from a line, or None when its pattern does not match |
| ParseLog.Record | acto/parse_log/parse_log.py:76-103 | the record a recognized line yields: `msg`, and `level` when there is one |
| ParseLog.Classify | acto/parse_log/parse_log.py:57-116 | what parse_log returns: the record of the first format that recognizes the line, else the normalized decoded JSON, else `{}` |
| ParseLog.FirstMatch | acto/parse_log/parse_log.py:72-103 | the first format in the list that recognizes the line; every format before it fails, and when none is found every format fails |
| ParseLog.FirstMatchAt | acto/parse_log/parse_log.py:72-103 | a format that recognizes the line, after only failing ones, decides the result whatever later formats give |
| ParseLog.ParseLog | acto/parse_log/parse_log.py:57-116 | the if/elif chain, with the record updated in place, gives Classify: the record of the first recognizing format, else the normalized JSON, else `{}` |
| ParseLog.KlogRecord | acto/parse_log/parse_log.py:75-84 | the klog branch's dict updates give the record of the klog fields: the letter table, then `msg` (group 11) |
| ParseLog.WordLevelRecord | acto/parse_log/parse_log.py:85-94 | the logr and logr-special branches (and grafana-logr, lines 100-103): `level` is group 2 lower-cased and `msg` is group 4 |
| ParseLog.LogrusRecord | acto/parse_log/parse_log.py:95-99 | the logrus branch: `level` is group 2 as it stands and `msg` is group 3 |
| ParseLog.ClassifyKlog | acto/parse_log/parse_log.py:72-84 | a line the klog pattern matches yields the klog record |
| ParseLog.ClassifyLogr | acto/parse_log/parse_log.py:85-89 | a logr line that is not klog yields the logr record |
| ParseLog.ClassifyLogrSpecial | acto/parse_log/parse_log.py:90-94 | a logr-special line that matches neither earlier pattern yields its record |
| ParseLog.ClassifyLogrus | acto/parse_log/parse_log.py:95-99 | a logrus line that matches none of the three earlier patterns yields the logrus record |
| ParseLog.ClassifyGrafanaLogr | acto/parse_log/parse_log.py:100-103 | a grafana-logr line that matches none of the four earlier patterns yields its record |
| ParseLog.ClassifyUnrecognized | acto/parse_log/parse_log.py:104-116 | a line that no pattern matches gives `{}` when decoding fails, and the normalized decoded value otherwise |
| ParseLog.ClassifyAt | acto/parse_log/parse_log.py:72-103 | the format at position i decides when it recognizes the line and none before it does |
| ParseLog.ClassifyNone | acto/parse_log/parse_log.py:104-116 | when no format recognizes the line, the JSON fallback decides |
| JsonValue.LowerIfStr | acto/parse_log/parse_log.py:111 | `.lower()` on a string value; on any other value Python raises, and the value stays as it was |
| JsonValue.Normalized | acto/parse_log/parse_log.py:105-111 | a non-object is unchanged; in an object, a missing `level` takes `severity`'s value (lower-cased if a string) and `severity` goes, a string `level` is lower-cased, and every other key keeps its value |
| JsonValue.NormalizeDecoded | acto/parse_log/parse_log.py:105-116 | the dict updates, stopping where Python raises, leave exactly Normalized(decoded), including a move of `severity` that stays done when `.lower()` fails |
| JsonValue.NormalizedLevelLowercase | acto/parse_log/parse_log.py:111 | after the fallback, a string `level` in an object is lowercase |
| JsonValue.LowerIfStrIdempotent | acto/parse_log/parse_log.py:111 | lower-casing a lower-cased value changes nothing |
| JsonValue.NormalizedIdempotent | acto/parse_log/parse_log.py:105-111 | normalizing a normalized value changes nothing |
| ParseLogProperties.KlogLevelTable | acto/parse_log/parse_log.py:75-84 | a klog record has only `level` and `msg`; `level` is present exactly when the letter is E, I, W or F, which map to error, info, warn and fatal; `msg` is group 11 |
| ParseLogProperties.KlogMessage | acto/parse_log/parse_log.py:14-18 | for any klog cut, Match's colon is at least as late (the last `:<digits>]`); the message is on one line, followed only by whitespace, and does not end in whitespace |
| ParseLogProperties.WordLevelShape | acto/parse_log/parse_log.py:23-26 | logr-family level is non-empty lowercase ASCII; `msg` is a substring of the line followed only by whitespace, with no whitespace at either end |
| ParseLogProperties.LowerOfUpperRun | acto/parse_log/parse_log.py:88 | `.lower()` of an `[A-Z]+` token is a run of `[a-z]` |
| ParseLogProperties.LogrusShape | acto/parse_log/parse_log.py:41-45 | the logrus level is non-empty `[a-z]+`, so copying it unlowered is already lowercase; the message is non-empty, does not end in `\`, is closed by `"`, and whitespace follows later in the line |
| ParseLogProperties.RecognizeNeedsStart | acto/parse_log/parse_log.py:72-103 | a format recognizes only lines that start as its pattern demands |
| ParseLogProperties.NoStampMatch | acto/parse_log/parse_log.py:20-34 | a timestamp pattern fails on a line that does not start as that timestamp does |
| ParseLogProperties.NoneBeforeByStart | acto/parse_log/parse_log.py:72-103 | the first n formats all fail on a line that starts as none of them demands |
| ParseLogProperties.GrafanaLogrDecides | acto/parse_log/parse_log.py:100-103 | whenever the grafana-logr pattern matches, its record is the result: the branch is reachable |
| ParseLogProperties.BraceLineIsJson | acto/parse_log/parse_log.py:104-116 | a line whose first non-blank character is `{` always reaches the JSON fallback |
| ParseLogProperties.LevelLowercaseWhenString | acto/parse_log/parse_log.py:65-67 | the part of the doc comment that holds: a `level` that is present and a string is lowercase |
| ParseLogProperties.FirstMatchLevelLowercase | acto/parse_log/parse_log.py:72-103 | the level that any recognizing format gives is lowercase |
| ParseLogProperties.WordLevelLowercase | acto/parse_log/parse_log.py:88 | the lower-cased logr-family level is lowercase |
| ParseLogProperties.LogrusLevelLowercase | acto/parse_log/parse_log.py:98 | the logrus level, copied as it stands, is lowercase |
| ParseLogProperties.LevelNotAlwaysThere | acto/parse_log/parse_log.py:65-67 | against the doc comment: a JSON object without `level` or `severity`, and one with a numeric `level`, come back unchanged |
| ParseLogProperties.UnmappedKlogLineCut | acto/parse_log/parse_log.py:7-18 | `X0101 00:00:00.000000 1 a:1] m` has a klog cut with level letter `X` |
| ParseLogProperties.UnmappedKlogLineMatch | acto/parse_log/parse_log.py:7-18 | on that line the klog pattern matches with group 11 = `m` |
| ParseLogProperties.UnmappedKlogLetter | acto/parse_log/parse_log.py:75-84 | that line gives `{"msg": "m"}` and no `level`: `X` is not in the letter table |
| ParseLogProperties.SeverityRenamed | acto/parse_log/parse_log.py:105-111 | the JSON line `{"severity":"ERROR","msg":"x"}` gives `{"level": "error", "msg": "x"}` |
| ParseLogProperties.SeverityObjectNormalized | acto/parse_log/parse_log.py:105-111 | the decoded object `{"severity": "ERROR", "msg": "x"}` normalizes to `{"level": "error", "msg": "x"}` |
| ParseLogProperties.PlainTextGivesEmpty | acto/parse_log/parse_log.py:104-116 | text that is no log format and does not decode gives `{}` |
| ParseLogProperties.JsonFallbackIdempotent | acto/parse_log/parse_log.py:105-111 | on the JSON path, normalizing the result again changes nothing |
| Text.Span | acto/parse_log/parse_log.py:7 | a greedy `k*` from a position: a run of class k that stops at a character outside k or at the end |
| Text.LazyEnd | acto/parse_log/parse_log.py:17-18 | a lazy `(.*?)` followed by `\s*$` stops at the first position after which only whitespace remains |
| Text.Lower | acto/parse_log/parse_log.py:88 | `str.lower()` on ASCII: the same length, with each character lower-cased |
| Text.LowerIsLowercase | acto/parse_log/parse_log.py:88 | a lower-cased text has no upper-case letter |
| Text.LowerFixesLowercase | acto/parse_log/parse_log.py:98 | a text with no upper-case letter is its own lower-casing |

## Left out

- Logging: the thread logger (lines 5 and 69) and the `logger.debug` call in the `except` (line 113) have no effect on the result.
- The `__main__` block (lines 119-136) reads a file and prints.
- `json.loads` itself is not modelled: its outcome is the input `decoded`. Duplicate keys and the parsing of numbers belong to the decoder. A JSON number is a `real`.
- The order of keys in the returned dict is not modelled: a record is a `map`.
- Unicode: `\w`, `\d`, `\s` and `str.lower()` are the ASCII ones. Python's `re` and `str.lower()` also accept non-ASCII letters, digits and spaces. Python's `\s` also matches the ASCII separators 0x1C-0x1F, which `IsSpace` leaves out.
- Timestamps are not interpreted; they only anchor the patterns.
- `re.search` is called a second time in each branch to read the groups. It returns the same match, so the model computes the match once.
