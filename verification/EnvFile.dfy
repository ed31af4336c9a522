/**
 Rewriting `.env` so that every loader agrees: the line rewriter of
 `scripts/claude_account.py`, its last-wins reader, and the daemon's first-wins
 parser. Strings are decoded text. The script splits the text at every Unicode
 line boundary, the daemon at newlines only.
 */
module EnvFile {
  import opened Prelude
  import opened PyText

  // ---------------------------------------------------------------------
  // Splitting an assignment
  // ---------------------------------------------------------------------

  predicate IsQuote(c: char) { c == '"' || c == '\'' }

  /** `partition("=")`: the text before and after the first equals sign. */
  function Partition(s: string): (string, string)
    requires '=' in s
  {
    if s[0] == '=' then ([], s[1..]) else var rest := Partition(s[1..]); ([s[0]] + rest.0, rest.1)
  }

  // ---------------------------------------------------------------------
  // The two readers
  // ---------------------------------------------------------------------

  predicate IsAssignment(line: string) {
    var stripped := Strip(line);
    stripped != [] && stripped[0] != '#' && '=' in stripped
  }

  function Value(line: string): string
    requires IsAssignment(line)
  {
    StripOf(Strip(Partition(Strip(line)).1), IsQuote)
  }

  const EXPORT := "export"

  predicate Exported(lhs: string) {
    EXPORT <= lhs && (|lhs| == |EXPORT| || IsSpace(lhs[|EXPORT|]))
  }

  function NonEmpty(s: string): Option<string> {
    if s == [] then None else Some(s)
  }

  /** `_live_key`: the key a line assigns, seen through an `export` prefix. */
  function LiveKey(line: string): Option<string> {
    if !IsAssignment(line) then None
    else
      var lhs := Strip(Partition(Strip(line)).0);
      NonEmpty(if Exported(lhs) then Strip(lhs[|EXPORT|..]) else lhs)
  }

  /** The key the daemon's own parser sees: it knows nothing of `export`. */
  function DaemonKey(line: string): Option<string> {
    if !IsAssignment(line) then None else NonEmpty(Strip(Partition(Strip(line)).0))
  }

  /** The last assignment wins. */
  function ReadLive(lines: seq<string>, key: string): Option<string> {
    if lines == [] then None
    else if LiveKey(lines[|lines|-1]) == Some(key) then Some(Value(lines[|lines|-1]))
    else ReadLive(lines[..|lines|-1], key)
  }

  /** The first assignment wins, for a key the environment does not preset. */
  function ReadDaemon(lines: seq<string>, key: string): Option<string> {
    if lines == [] then None
    else if DaemonKey(lines[0]) == Some(key) then Some(Value(lines[0]))
    else ReadDaemon(lines[1..], key)
  }

  /** `read_live_value`. */
  method ReadLiveValue(lines: seq<string>, key: string) returns (found: Option<string>)
    ensures found == ReadLive(lines, key)
  {
    found := None;
    for i := 0 to |lines|
      invariant found == ReadLive(lines[..i], key)
    {
      assert lines[..i+1][..i] == lines[..i];
      if LiveKey(lines[i]) == Some(key) {
        found := Some(Value(lines[i]));
      }
    }
    assert lines[..|lines|] == lines;
  }

  /** `_load_dotenv`, into an environment that presets some keys. */
  method LoadDotenv(text: string, preset: map<string, string>) returns (env: map<string, string>)
    ensures forall key | key in preset :: key in env && env[key] == preset[key]
    ensures forall key | key !in preset ::
              if DaemonReads(text, key).Some?
              then key in env && env[key] == DaemonReads(text, key).value
              else key !in env
  {
    var lines := NewlineSplit(text);
    hide Strip, Partition, StripOf;
    env := preset;
    for i := 0 to |lines|
      invariant forall key | key in preset :: key in env && env[key] == preset[key]
      invariant forall key | key !in preset ::
                  if ReadDaemon(lines[..i], key).Some? then key in env && env[key] == ReadDaemon(lines[..i], key).value
                  else key !in env
    {
      forall key ensures ReadDaemon(lines[..i+1], key) ==
                         if ReadDaemon(lines[..i], key).Some? then ReadDaemon(lines[..i], key)
                         else if DaemonKey(lines[i]) == Some(key) then Some(Value(lines[i])) else None
      {
        FirstOfAppended(lines[..i], lines[i], key);
        assert lines[..i] + [lines[i]] == lines[..i+1];
      }
      var k := DaemonKey(lines[i]);
      if k.Some? && k.value !in env {
        env := env[k.value := Value(lines[i])];
      }
    }
    assert lines[..|lines|] == lines;
  }

  lemma {:induction false} FirstOfAppended(lines: seq<string>, line: string, key: string)
    ensures ReadDaemon(lines + [line], key) ==
            if ReadDaemon(lines, key).Some? then ReadDaemon(lines, key)
            else if DaemonKey(line) == Some(key) then Some(Value(line)) else None
  {
    if lines == [] {
      assert [line][1..] == [];
      assert lines + [line] == [line];
    } else {
      assert (lines + [line])[1..] == lines[1..] + [line];
      FirstOfAppended(lines[1..], line, key);
    }
  }

  // ---------------------------------------------------------------------
  // The rewriter
  // ---------------------------------------------------------------------

  function Assignment(key: string, value: string): string { key + "=" + value }

  function SetFrom(lines: seq<string>, key: string, value: string, seen: bool): seq<string> {
    if lines == [] then (if seen then [] else [Assignment(key, value)])
    else if LiveKey(lines[0]) == Some(key) then
      (if seen then [] else [Assignment(key, value)]) + SetFrom(lines[1..], key, value, true)
    else [lines[0]] + SetFrom(lines[1..], key, value, seen)
  }

  function SetEnv(lines: seq<string>, key: string, value: string): seq<string> {
    SetFrom(lines, key, value, false)
  }

  lemma Regroup(a: seq<string>, b: seq<string>, c: seq<string>)
    ensures a + (b + c) == (a + b) + c
  {
  }

  /** `set_env_var`. */
  method SetEnvVar(lines: seq<string>, key: string, value: string) returns (out: seq<string>)
    ensures out == SetEnv(lines, key, value)
  {
    hide LiveKey, Assignment;
    out := [];
    var seen := false;
    for i := 0 to |lines|
      invariant SetEnv(lines, key, value) == out + SetFrom(lines[i..], key, value, seen)
    {
      assert lines[i..][1..] == lines[i+1..];
      ghost var rest := SetFrom(lines[i+1..], key, value, seen || LiveKey(lines[i]) == Some(key));
      if LiveKey(lines[i]) == Some(key) {
        if !seen {
          Regroup(out, [Assignment(key, value)], rest);
          out := out + [Assignment(key, value)];
          seen := true;
        } else {
          assert [] + rest == rest;
        }
        continue;
      }
      Regroup(out, [lines[i]], rest);
      out := out + [lines[i]];
    }
    if !seen {
      out := out + [Assignment(key, value)];
    }
  }

  /** A shell identifier other than the word `export`. */
  predicate ValidKey(key: string) {
    key != [] && key != EXPORT &&
    forall k | 0 <= k < |key| :: 'A' <= key[k] <= 'Z' || 'a' <= key[k] <= 'z' || '0' <= key[k] <= '9' || key[k] == '_'
  }

  /** `token_serialization_safe`. */
  predicate SafeValue(value: string) {
    value != [] &&
    forall k | 0 <= k < |value| ::
      'A' <= value[k] <= 'Z' || 'a' <= value[k] <= 'z' || '0' <= value[k] <= '9' || value[k] in "_.-=+/:"
  }

  lemma SafeValueIff(value: string)
    ensures SafeValue(value) <==>
            value != "" && forall k | 0 <= k < |value| ::
              var c := value[k];
              'a' <= c <= 'z' || 'A' <= c <= 'Z' || '0' <= c <= '9' || c == '_' || c == '.' || c == '-' ||
              c == '=' || c == '+' || c == '/' || c == ':'
  {
  }

  function Filter(lines: seq<string>, keep: string -> bool): seq<string> {
    if lines == [] then []
    else (if keep(lines[0]) then [lines[0]] else []) + Filter(lines[1..], keep)
  }

  function AssignsLive(key: string): string -> bool { line => LiveKey(line) == Some(key) }

  function AssignsDaemon(key: string): string -> bool { line => DaemonKey(line) == Some(key) }

  function AssignsOther(key: string): string -> bool { line => LiveKey(line) != Some(key) }

  /** Lines the rewrite must not touch: everything but live assignments of the key. */
  function Untouched(lines: seq<string>, key: string): seq<string> {
    Filter(lines, AssignsOther(key))
  }

  function LiveLines(lines: seq<string>, key: string): seq<string> {
    Filter(lines, AssignsLive(key))
  }

  function DaemonLines(lines: seq<string>, key: string): seq<string> {
    Filter(lines, AssignsDaemon(key))
  }

  // --- the canonical line ----------------------------------------------

  lemma StripKeeps(s: string, drop: char -> bool)
    requires s != [] && !drop(s[0]) && !drop(s[|s|-1])
    ensures StripOf(s, drop) == s
  {
  }

  lemma {:induction false} PartitionAt(key: string, value: string)
    requires '=' !in key
    ensures '=' in Assignment(key, value) && Partition(Assignment(key, value)) == (key, value)
  {
    var line := Assignment(key, value);
    assert line[|key|] == '=';
    if key == [] {
      assert line[1..] == value;
    } else {
      assert line[1..] == Assignment(key[1..], value);
      PartitionAt(key[1..], value);
      assert [key[0]] + key[1..] == key;
    }
  }

  /** A key and value with clean ends are read back by the daemon as they are. */
  lemma PlainLine(key: string, value: string)
    requires CleanEnds(key) && '=' !in key && key[0] != '#'
    requires CleanEnds(value)
    ensures IsAssignment(Assignment(key, value))
    ensures DaemonKey(Assignment(key, value)) == Some(key) && Value(Assignment(key, value)) == value
  {
    var line := Assignment(key, value);
    assert line[0] == key[0] && line[|line|-1] == value[|value|-1];
    StripKeeps(line, IsSpace);
    PartitionAt(key, value);
    StripKeeps(key, IsSpace);
    StripKeeps(value, IsSpace);
    StripKeeps(value, IsQuote);
    hide IsSpace, IsQuote, Partition, StripOf;
  }

  predicate CleanEnds(s: string) {
    s != [] && !IsSpace(s[0]) && !IsSpace(s[|s|-1]) && !IsQuote(s[0]) && !IsQuote(s[|s|-1])
  }

  lemma SafeIsClean(value: string)
    requires SafeValue(value)
    ensures CleanEnds(value)
  {
  }

  lemma ValidIsClean(key: string)
    requires ValidKey(key)
    ensures CleanEnds(key) && '=' !in key && key[0] != '#'
  {
  }

  /** The bare line is read back by both loaders as exactly this key and value. */
  lemma CanonicalLine(key: string, value: string)
    requires ValidKey(key) && SafeValue(value)
    ensures IsAssignment(Assignment(key, value))
    ensures LiveKey(Assignment(key, value)) == Some(key) && DaemonKey(Assignment(key, value)) == Some(key)
    ensures Value(Assignment(key, value)) == value
  {
    SafeIsClean(value);
    ValidIsClean(key);
    PlainLine(key, value);
    PartitionAt(key, value);
    StripKeeps(Assignment(key, value), IsSpace);
    StripKeeps(key, IsSpace);
    assert |key| == |EXPORT| && EXPORT <= key ==> key == EXPORT;
    assert |key| > |EXPORT| ==> !IsSpace(key[|EXPORT|]);
  }

  // --- what a line means to each reader -----------------------------------

  /** A comment assigns nothing to either reader, and neither does a line without an equals sign. */
  lemma CommentMeansNothing(line: string)
    requires (Strip(line) != "" && Strip(line)[0] == '#') || '=' !in Strip(line)
    ensures LiveKey(line) == None && DaemonKey(line) == None
  {
    hide Strip;
  }

  /** What stands before the first equals sign, blanks aside. */
  function LeftSide(line: string): string
    requires IsAssignment(line)
  {
    Strip(Partition(Strip(line)).0)
  }

  /** The keys the two readers see there: `export` alone or nothing names no key for the
      script, and after `export` and a blank it reads on. */
  lemma KeysMean(line: string)
    requires IsAssignment(line)
    ensures var lhs := LeftSide(line);
            && DaemonKey(line) == (if lhs == "" then None else Some(lhs))
            && (lhs == "" || lhs == "export" ==> LiveKey(line) == None)
            && (lhs != "" && !("export" <= lhs) ==> LiveKey(line) == Some(lhs))
            && ("export" < lhs && !IsSpace(lhs[6]) ==> LiveKey(line) == Some(lhs))
            && ("export" < lhs && IsSpace(lhs[6]) ==>
                  LiveKey(line) == if Strip(lhs[6..]) == "" then None else Some(Strip(lhs[6..])))
  {
    var lhs := LeftSide(line);
    assert lhs == "export" ==> lhs[6..] == "";
    hide IsSpace, Partition, StripOf, IsAssignment;
  }

  /** Blanks around a line do not matter. */
  lemma PaddingIgnored(line: string, padded: string)
    requires Strip(padded) == Strip(line)
    ensures LiveKey(padded) == LiveKey(line) && DaemonKey(padded) == DaemonKey(line)
    ensures IsAssignment(line) ==> IsAssignment(padded) && Value(padded) == Value(line)
  {
    hide Strip;
  }

  function Quoted(q: char, value: string): string { [q] + value + [q] }

  /** Either kind of quote around a value is removed by both readers. */
  lemma QuotesRemoved(key: string, q: char, value: string)
    requires ValidKey(key) && SafeValue(value) && IsQuote(q)
    ensures var line := Assignment(key, Quoted(q, value));
            IsAssignment(line) && LiveKey(line) == Some(key) && DaemonKey(line) == Some(key) && Value(line) == value
  {
    var quoted := Quoted(q, value);
    var line := Assignment(key, quoted);
    ValidIsClean(key);
    SafeIsClean(value);
    QuotedStrips(q, value);
    LineStrips(key, quoted);
    PartitionAt(key, quoted);
    StripKeeps(key, IsSpace);
    ValidKeyNotExported(key);
    hide IsSpace, StripOf, Partition, Assignment, ValidKey, SafeValue;
  }

  lemma QuotedStrips(q: char, value: string)
    requires CleanEnds(value) && IsQuote(q)
    ensures var quoted := Quoted(q, value);
            quoted[0] == q && quoted[|quoted|-1] == q && Strip(quoted) == quoted && StripOf(quoted, IsQuote) == value
  {
    var quoted := Quoted(q, value);
    StripKeeps(quoted, IsSpace);
    assert quoted[1..] == value + [q];
    assert LStrip(value + [q], IsQuote) == value + [q];
    assert (value + [q])[..|value|] == value;
    assert RStrip(value, IsQuote) == value;
  }

  lemma LineStrips(key: string, value: string)
    requires key != "" && value != "" && !IsSpace(key[0]) && !IsSpace(value[|value|-1])
    ensures var line := Assignment(key, value); line[0] == key[0] && Strip(line) == line
  {
    var line := Assignment(key, value);
    assert line[0] == key[0] && line[|line|-1] == value[|value|-1];
    StripKeeps(line, IsSpace);
  }

  /** `export key=value` assigns key to the script and a key of its own to the daemon. */
  lemma ExportMeans(key: string, value: string)
    requires ValidKey(key) && SafeValue(value)
    ensures var line := Assignment(ExportForm(key), value);
            LiveKey(line) == Some(key) && DaemonKey(line) == Some(ExportForm(key)) && Value(line) == value
  {
    ExportLine(key, value);
    ExportSeen(key);
    KeysAgree(Assignment(ExportForm(key), value));
    hide SeenThrough, ExportForm, Assignment;
  }

  /** The script reads the value of the last line that assigns the key. */
  lemma {:induction false} LastWins(lines: seq<string>, key: string)
    ensures ReadLive(lines, key).None? <==> forall i | 0 <= i < |lines| :: LiveKey(lines[i]) != Some(key)
    ensures ReadLive(lines, key).Some? ==>
              exists i :: 0 <= i < |lines| && LiveKey(lines[i]) == Some(key) &&
                          ReadLive(lines, key) == Some(Value(lines[i])) &&
                          forall j | i < j < |lines| :: LiveKey(lines[j]) != Some(key)
  {
    hide Value, Strip, Partition, Exported;
    if lines != [] {
      var n := |lines| - 1;
      LastWins(lines[..n], key);
      if LiveKey(lines[n]) != Some(key) && ReadLive(lines, key).Some? {
        var i :| 0 <= i < n && LiveKey(lines[..n][i]) == Some(key) &&
                 ReadLive(lines[..n], key) == Some(Value(lines[..n][i])) &&
                 forall j | i < j < n :: LiveKey(lines[..n][j]) != Some(key);
        assert lines[..n][i] == lines[i];
        forall j | i < j < |lines| ensures LiveKey(lines[j]) != Some(key) {
          if j < n { assert lines[..n][j] == lines[j]; }
        }
      }
      if ReadLive(lines, key).None? {
        forall i | 0 <= i < |lines| ensures LiveKey(lines[i]) != Some(key) {
          if i < n { assert lines[..n][i] == lines[i]; }
        }
      }
    }
  }

  /** The daemon reads the value of the first line that assigns the key. */
  lemma {:induction false} FirstWins(lines: seq<string>, key: string)
    ensures ReadDaemon(lines, key).None? <==> forall i | 0 <= i < |lines| :: DaemonKey(lines[i]) != Some(key)
    ensures ReadDaemon(lines, key).Some? ==>
              exists i :: 0 <= i < |lines| && DaemonKey(lines[i]) == Some(key) &&
                          ReadDaemon(lines, key) == Some(Value(lines[i])) &&
                          forall j | 0 <= j < i :: DaemonKey(lines[j]) != Some(key)
  {
    hide Value, Strip, Partition;
    if lines != [] && DaemonKey(lines[0]) != Some(key) {
      FirstWins(lines[1..], key);
      if ReadDaemon(lines, key).Some? {
        var i :| 0 <= i < |lines| - 1 && DaemonKey(lines[1..][i]) == Some(key) &&
                 ReadDaemon(lines[1..], key) == Some(Value(lines[1..][i])) &&
                 forall j | 0 <= j < i :: DaemonKey(lines[1..][j]) != Some(key);
        assert lines[i + 1] == lines[1..][i];
        forall j | 0 <= j < i + 1 ensures DaemonKey(lines[j]) != Some(key) {
          if j > 0 { assert lines[j] == lines[1..][j - 1]; }
        }
      } else {
        forall i | 0 <= i < |lines| ensures DaemonKey(lines[i]) != Some(key) {
          if i > 0 { assert lines[i] == lines[1..][i - 1]; }
        }
      }
    }
  }

  /** Where the new line goes: in place of the first live assignment, later ones dropped. */
  lemma {:induction false} SetInPlace(lines: seq<string>, key: string, value: string, i: nat)
    requires i < |lines| && LiveKey(lines[i]) == Some(key) && forall j | 0 <= j < i :: LiveKey(lines[j]) != Some(key)
    ensures SetEnv(lines, key, value) == lines[..i] + [Assignment(key, value)] + Untouched(lines[i+1..], key)
    decreases i
  {
    hide LiveKey, Assignment;
    if i == 0 {
      DropsOthers(lines[1..], key, value);
      assert lines[..0] + [Assignment(key, value)] == [Assignment(key, value)];
    } else {
      assert forall j | 0 <= j < i - 1 :: lines[1..][j] == lines[j + 1];
      SetInPlace(lines[1..], key, value, i - 1);
      assert lines[1..][i..] == lines[i+1..];
      assert lines[..i] == [lines[0]] + lines[1..][..i - 1];
    }
  }

  /** Or at the end, when there was none. */
  lemma {:induction false} SetAtEnd(lines: seq<string>, key: string, value: string)
    requires forall j | 0 <= j < |lines| :: LiveKey(lines[j]) != Some(key)
    ensures SetEnv(lines, key, value) == lines + [Assignment(key, value)]
  {
    hide LiveKey, Assignment;
    if lines != [] {
      assert forall j | 0 <= j < |lines| - 1 :: lines[1..][j] == lines[j + 1];
      SetAtEnd(lines[1..], key, value);
      assert lines == [lines[0]] + lines[1..];
    }
  }

  lemma {:induction false} DropsOthers(lines: seq<string>, key: string, value: string)
    ensures SetFrom(lines, key, value, true) == Untouched(lines, key)
  {
    hide LiveKey;
    if lines != [] { DropsOthers(lines[1..], key, value); }
  }

  // --- what the rewrite does to each reader ------------------------------

  lemma {:induction false} FilterAppend(a: seq<string>, b: seq<string>, keep: string -> bool)
    ensures Filter(a + b, keep) == Filter(a, keep) + Filter(b, keep)
  {
    if a == [] {
      assert a + b == b;
    } else {
      assert (a + b)[1..] == a[1..] + b;
      FilterAppend(a[1..], b, keep);
    }
  }

  lemma FilterOne(line: string, keep: string -> bool)
    ensures Filter([line], keep) == if keep(line) then [line] else []
  {
  }

  /** A view that shows neither the key's live lines nor the new line is unchanged. */
  lemma {:induction false} ViewUnchanged(
      lines: seq<string>, key: string, value: string, seen: bool, keep: string -> bool)
    requires forall line | keep(line) :: LiveKey(line) != Some(key)
    requires !keep(Assignment(key, value))
    ensures Filter(SetFrom(lines, key, value, seen), keep) == Filter(lines, keep)
  {
    FilterOne(Assignment(key, value), keep);
    if lines != [] {
      ViewUnchanged(lines[1..], key, value, seen || LiveKey(lines[0]) == Some(key), keep);
      var rest := SetFrom(lines[1..], key, value, seen || LiveKey(lines[0]) == Some(key));
      if LiveKey(lines[0]) == Some(key) {
        FilterAppend(if seen then [] else [Assignment(key, value)], rest, keep);
      } else {
        FilterAppend([lines[0]], rest, keep);
        FilterOne(lines[0], keep);
      }
    }
  }

  lemma {:induction false} OneLiveLine(lines: seq<string>, key: string, value: string, seen: bool)
    requires ValidKey(key) && SafeValue(value)
    ensures LiveLines(SetFrom(lines, key, value, seen), key) == if seen then [] else [Assignment(key, value)]
  {
    var keep := AssignsLive(key);
    CanonicalLine(key, value);
    FilterOne(Assignment(key, value), keep);
    if lines != [] {
      var now := seen || LiveKey(lines[0]) == Some(key);
      OneLiveLine(lines[1..], key, value, now);
      var rest := SetFrom(lines[1..], key, value, now);
      if LiveKey(lines[0]) == Some(key) {
        FilterAppend(if seen then [] else [Assignment(key, value)], rest, keep);
      } else {
        FilterAppend([lines[0]], rest, keep);
        FilterOne(lines[0], keep);
      }
    }
  }

  lemma ReadLiveAppended(lines: seq<string>, line: string, key: string)
    ensures ReadLive(lines + [line], key) ==
            if LiveKey(line) == Some(key) then Some(Value(line)) else ReadLive(lines, key)
  {
  }

  /** Each reader looks at nothing but the lines of its key. */
  lemma {:induction false} LiveReaderView(lines: seq<string>, key: string)
    ensures ReadLive(lines, key) == ReadLive(LiveLines(lines, key), key)
  {
    hide LiveKey, Filter, ReadLive, Strip, Partition, StripOf, IsAssignment;
    if lines == [] {
      NoLines(key);
    } else {
      var early, last := lines[..|lines|-1], lines[|lines|-1];
      assert lines == early + [last];
      LiveReaderView(early, key);
      ReadLiveAppended(early, last, key);
      FilterAppend(early, [last], AssignsLive(key));
      FilterOne(last, AssignsLive(key));
      if LiveKey(last) == Some(key) {
        assert LiveLines(lines, key) == LiveLines(early, key) + [last];
        ReadLiveAppended(LiveLines(early, key), last, key);
      } else {
        assert LiveLines(lines, key) == LiveLines(early, key);
      }
    }
  }

  lemma NoLines(key: string)
    ensures LiveLines([], key) == [] && ReadLive([], key) == None
  {
  }

  lemma {:induction false} DaemonReaderView(lines: seq<string>, key: string)
    ensures ReadDaemon(lines, key) == ReadDaemon(DaemonLines(lines, key), key)
  {
    if lines != [] {
      DaemonReaderView(lines[1..], key);
      if DaemonKey(lines[0]) != Some(key) {
        assert [] + DaemonLines(lines[1..], key) == DaemonLines(lines[1..], key);
      }
    }
  }

  /** What `export` hides from the daemon's parser. */
  function SeenThrough(lhs: string): Option<string> {
    NonEmpty(if Exported(lhs) then Strip(lhs[|EXPORT|..]) else lhs)
  }

  lemma ValidKeyNotExported(key: string)
    requires ValidKey(key)
    ensures SeenThrough(key) == Some(key)
  {
  }

  lemma KeysAgree(line: string)
    ensures LiveKey(line) == if DaemonKey(line).Some? then SeenThrough(DaemonKey(line).value) else None
  {
  }

  /** Exactly one live assignment remains, so both loaders read the new value. */
  lemma BothLoadersAgree(lines: seq<string>, key: string, value: string)
    requires ValidKey(key) && SafeValue(value)
    ensures LiveLines(SetEnv(lines, key, value), key) == [Assignment(key, value)]
    ensures ReadLive(SetEnv(lines, key, value), key) == Some(value)
    ensures ReadDaemon(SetEnv(lines, key, value), key) == Some(value)
  {
    var out, line := SetEnv(lines, key, value), Assignment(key, value);
    CanonicalLine(key, value);
    OneLiveLine(lines, key, value, false);
    LiveReaderView(out, key);
    assert ReadLive([line], key) == Some(value);
    DaemonLinesAreLive(out, key);
    DaemonReaderView(out, key);
    FilterOne(line, AssignsDaemon(key));
    assert ReadDaemon([line], key) == Some(value);
  }

  /** For a plain key, the daemon's lines are among the live lines. */
  lemma {:induction false} DaemonLinesAreLive(lines: seq<string>, key: string)
    requires ValidKey(key)
    ensures DaemonLines(lines, key) == DaemonLines(LiveLines(lines, key), key)
  {
    if lines != [] {
      DaemonLinesAreLive(lines[1..], key);
      KeysAgree(lines[0]);
      ValidKeyNotExported(key);
      var daemon := AssignsDaemon(key);
      FilterOne(lines[0], daemon);
      FilterAppend(if LiveKey(lines[0]) == Some(key) then [lines[0]] else [], LiveLines(lines[1..], key), daemon);
    }
  }

  /** Comments, blank lines and every other key are kept, in order. */
  lemma OtherLinesKept(lines: seq<string>, key: string, value: string)
    requires ValidKey(key) && SafeValue(value)
    ensures Untouched(SetEnv(lines, key, value), key) == Untouched(lines, key)
  {
    CanonicalLine(key, value);
    ViewUnchanged(lines, key, value, false, AssignsOther(key));
  }

  /** The last-wins reading of every other key is unchanged. */
  lemma OtherLiveReadings(lines: seq<string>, key: string, value: string, other: string)
    requires ValidKey(key) && SafeValue(value) && other != key
    ensures ReadLive(SetEnv(lines, key, value), other) == ReadLive(lines, other)
  {
    CanonicalLine(key, value);
    ViewUnchanged(lines, key, value, false, AssignsLive(other));
    LiveReaderView(lines, other);
    LiveReaderView(SetEnv(lines, key, value), other);
  }

  /** On one list of lines, the first assignment of another key is unchanged, unless
      that "key" is an `export` form of the rewritten one: those are collapsed. */
  lemma OtherFirstAssignments(lines: seq<string>, key: string, value: string, other: string)
    requires ValidKey(key) && SafeValue(value) && other != key
    ensures ReadDaemon(SetEnv(lines, key, value), other) ==
            if SeenThrough(other) == Some(key) then None else ReadDaemon(lines, other)
  {
    var out := SetEnv(lines, key, value);
    CanonicalLine(key, value);
    if SeenThrough(other) == Some(key) {
      ExportFormsCollapsed(lines, key, value, false, other);
      DaemonReaderView(out, other);
    } else {
      forall line | DaemonKey(line) == Some(other) ensures LiveKey(line) != Some(key) { KeysAgree(line); }
      ViewUnchanged(lines, key, value, false, AssignsDaemon(other));
      DaemonReaderView(lines, other);
      DaemonReaderView(out, other);
    }
  }

  lemma {:induction false} ExportFormsCollapsed(
      lines: seq<string>, key: string, value: string, seen: bool, other: string)
    requires ValidKey(key) && SafeValue(value) && other != key && SeenThrough(other) == Some(key)
    ensures DaemonLines(SetFrom(lines, key, value, seen), other) == []
  {
    var keep := AssignsDaemon(other);
    CanonicalLine(key, value);
    FilterOne(Assignment(key, value), keep);
    if lines != [] {
      var now := seen || LiveKey(lines[0]) == Some(key);
      ExportFormsCollapsed(lines[1..], key, value, now, other);
      var rest := SetFrom(lines[1..], key, value, now);
      KeysAgree(lines[0]);
      if LiveKey(lines[0]) == Some(key) {
        FilterAppend(if seen then [] else [Assignment(key, value)], rest, keep);
      } else {
        FilterAppend([lines[0]], rest, keep);
        FilterOne(lines[0], keep);
      }
    }
  }

  lemma {:induction false} SetTwiceFrom(lines: seq<string>, key: string, value: string, seen: bool)
    requires ValidKey(key) && SafeValue(value)
    ensures SetFrom(SetFrom(lines, key, value, seen), key, value, seen) == SetFrom(lines, key, value, seen)
  {
    var line := Assignment(key, value);
    CanonicalLine(key, value);
    assert [line][1..] == [];
    if lines != [] {
      var now := seen || LiveKey(lines[0]) == Some(key);
      var rest := SetFrom(lines[1..], key, value, now);
      SetTwiceFrom(lines[1..], key, value, now);
      if LiveKey(lines[0]) == Some(key) && seen {
        assert [] + rest == rest;
      } else {
        var head := if LiveKey(lines[0]) == Some(key) then line else lines[0];
        assert ([head] + rest)[1..] == rest;
      }
    }
  }

  /** Rewriting again changes nothing. */
  lemma RewriteIsIdempotent(lines: seq<string>, key: string, value: string)
    requires ValidKey(key) && SafeValue(value)
    ensures SetEnv(SetEnv(lines, key, value), key, value) == SetEnv(lines, key, value)
  {
    SetTwiceFrom(lines, key, value, false);
  }

  // ---------------------------------------------------------------------
  // The file as text
  // ---------------------------------------------------------------------

  /** Line boundaries of `str.splitlines`. */
  predicate IsBreak(c: char) {
    '\U{A}' <= c <= '\U{D}' || '\U{1C}' <= c <= '\U{1E}' || c == '\U{85}' || c == '\U{2028}' || c == '\U{2029}'
  }

  /** Where reading a text file line by line splits it: universal newlines. */
  predicate IsNewline(c: char) { c == '\n' || c == '\r' }

  predicate NoneOf(s: string, brk: char -> bool) {
    forall k | 0 <= k < |s| :: !brk(s[k])
  }

  predicate OneLineEach(lines: seq<string>) {
    forall k | 0 <= k < |lines| :: NoneOf(lines[k], IsBreak)
  }

  /** The lines between the boundaries, with `current` the line read so far; CR LF
      is one boundary, and a boundary at the end opens no further line. */
  function SplitFrom(brk: char -> bool, current: string, s: string): (lines: seq<string>)
    requires NoneOf(current, brk)
    ensures forall k | 0 <= k < |lines| :: NoneOf(lines[k], brk)
    ensures current != [] ==> lines != [] && current <= lines[0]
    decreases |s|
  {
    if s == [] then (if current == [] then [] else [current])
    else if brk(s[0]) then
      [current] + SplitFrom(brk, [], if s[0] == '\r' && |s| > 1 && s[1] == '\n' then s[2..] else s[1..])
    else SplitFrom(brk, current + [s[0]], s[1..])
  }

  /** `read_env_lines`. */
  function SplitLines(text: string): seq<string> { SplitFrom(IsBreak, [], text) }

  /** `for line in f`. */
  function NewlineSplit(text: string): seq<string> { SplitFrom(IsNewline, [], text) }

  /** What the daemon's parser reads for a key the environment does not preset. */
  function DaemonReads(text: string, key: string): Option<string> { ReadDaemon(NewlineSplit(text), key) }

  /** What the script reads. */
  function ScriptReads(text: string, key: string): Option<string> { ReadLive(SplitLines(text), key) }

  function Terminated(lines: seq<string>): string {
    if lines == [] then [] else lines[0] + "\n" + Terminated(lines[1..])
  }

  /** `"\n".join(lines) + "\n"`. */
  function FileText(lines: seq<string>): string {
    if lines == [] then "\n" else Terminated(lines)
  }

  /** The written text: every line ends in a line feed, and no lines make an empty line. */
  lemma FileTextMeans(lines: seq<string>, line: string)
    ensures FileText([]) == "\n" && FileText([line]) == line + "\n"
    ensures lines != [] ==> FileText([line] + lines) == line + "\n" + FileText(lines)
  {
    assert [line][1..] == [] && ([line] + lines)[1..] == lines;
    assert Terminated([]) == "" && line + "\n" + "" == line + "\n";
    assert FileText([line]) == line + "\n" + Terminated([line][1..]);
  }

  /** The two boundary sets. */
  lemma BoundariesMean(c: char)
    ensures IsNewline(c) <==> c as int == 10 || c as int == 13
    ensures IsBreak(c) <==> c as int in {10, 11, 12, 13, 28, 29, 30, 133, 8232, 8233}
  {
  }

  lemma {:induction false} SplitAtBreak(brk: char -> bool, current: string, line: string, c: char, rest: string)
    requires brk(c) && c != '\r' && NoneOf(current, brk) && NoneOf(line, brk)
    ensures NoneOf(current + line, brk)
    ensures SplitFrom(brk, current, line + [c] + rest) == [current + line] + SplitFrom(brk, [], rest)
    decreases |line|
  {
    var s := line + [c] + rest;
    if line == [] {
      assert s[0] == c && s[1..] == rest;
      assert current + line == current;
    } else {
      assert s[0] == line[0] && s[1..] == line[1..] + [c] + rest;
      SplitAtBreak(brk, current + [line[0]], line[1..], c, rest);
      assert current + [line[0]] + line[1..] == current + line;
    }
  }

  /** A carriage return ends a line, together with a line feed right after it. */
  lemma {:induction false} SplitAtReturn(brk: char -> bool, current: string, line: string, rest: string)
    requires brk('\r') && NoneOf(current, brk) && NoneOf(line, brk)
    ensures NoneOf(current + line, brk)
    ensures SplitFrom(brk, current, line + ['\r'] + rest) ==
            [current + line] + SplitFrom(brk, [], if rest != "" && rest[0] == '\n' then rest[1..] else rest)
    decreases |line|
  {
    var s := line + ['\r'] + rest;
    if line == [] {
      assert s[0] == '\r' && s[1..] == rest;
      assert rest != "" ==> s[1] == rest[0] && s[2..] == rest[1..];
      assert current + line == current;
    } else {
      assert s[0] == line[0] && s[1..] == line[1..] + ['\r'] + rest;
      SplitAtReturn(brk, current + [line[0]], line[1..], rest);
      assert current + [line[0]] + line[1..] == current + line;
    }
  }

  /** What is written is read back line for line, wherever the reader splits. */
  lemma {:induction false} FileRoundTrip(brk: char -> bool, lines: seq<string>)
    requires lines != [] && brk('\n') && forall k | 0 <= k < |lines| :: NoneOf(lines[k], brk)
    ensures SplitFrom(brk, [], FileText(lines)) == lines
  {
    SplitAtBreak(brk, [], lines[0], '\n', Terminated(lines[1..]));
    assert [] + lines[0] == lines[0];
    if lines[1..] != [] {
      FileRoundTrip(brk, lines[1..]);
    }
  }

  /** Both splits of a text the script wrote are the lines it wrote. */
  lemma WrittenLines(lines: seq<string>)
    requires lines != [] && OneLineEach(lines)
    ensures SplitLines(FileText(lines)) == lines && NewlineSplit(FileText(lines)) == lines
  {
    FileRoundTrip(IsBreak, lines);
    FileRoundTrip(IsNewline, lines);
  }

  /** A boundary that only the script honours. */
  predicate IsScriptBreak(c: char) { IsBreak(c) && !IsNewline(c) }

  lemma NoneOfConcat(a: string, b: string, brk: char -> bool)
    ensures NoneOf(a + b, brk) <==> NoneOf(a, brk) && NoneOf(b, brk)
  {
    if NoneOf(a + b, brk) {
      assert forall k | 0 <= k < |a| :: (a + b)[k] == a[k];
      assert forall k | 0 <= k < |b| :: (a + b)[|a| + k] == b[k];
    }
  }

  /** The two splits agree on a text if and only if newlines are its only boundaries. */
  lemma {:induction false} SplitsAgreeIff(current: string, s: string)
    requires NoneOf(current, IsBreak)
    ensures SplitFrom(IsBreak, current, s) == SplitFrom(IsNewline, current, s) <==> NoneOf(s, IsScriptBreak)
    decreases |s|
  {
    if s != [] {
      var n := if s[0] == '\r' && |s| > 1 && s[1] == '\n' then 2 else 1;
      assert s == s[..n] + s[n..];
      NoneOfConcat(s[..n], s[n..], IsScriptBreak);
      if IsNewline(s[0]) {
        SplitsAgreeIff([], s[n..]);
        assert SplitFrom(IsBreak, current, s)[1..] == SplitFrom(IsBreak, [], s[n..]);
        assert SplitFrom(IsNewline, current, s)[1..] == SplitFrom(IsNewline, [], s[n..]);
      } else if IsBreak(s[0]) {
        assert SplitFrom(IsBreak, current, s)[0] == current;
      } else {
        SplitsAgreeIff(current + [s[0]], s[1..]);
      }
    }
  }

  /** The rewrite produces a non-empty file of single lines from one. */
  lemma {:induction false} RewriteKeepsLines(lines: seq<string>, key: string, value: string, seen: bool)
    requires OneLineEach(lines) && ValidKey(key) && SafeValue(value)
    ensures OneLineEach(SetFrom(lines, key, value, seen))
    ensures !seen ==> SetFrom(lines, key, value, seen) != []
  {
    assert NoneOf(Assignment(key, value), IsBreak);
    if lines != [] {
      RewriteKeepsLines(lines[1..], key, value, seen || LiveKey(lines[0]) == Some(key));
    }
  }

  /** The text after setting one key. */
  function Rewritten(text: string, key: string, value: string): string {
    FileText(SetEnv(SplitLines(text), key, value))
  }

  lemma RewrittenLines(text: string, key: string, value: string)
    requires ValidKey(key) && SafeValue(value)
    ensures SplitLines(Rewritten(text, key, value)) == SetEnv(SplitLines(text), key, value)
    ensures NewlineSplit(Rewritten(text, key, value)) == SetEnv(SplitLines(text), key, value)
  {
    RewriteKeepsLines(SplitLines(text), key, value, false);
    WrittenLines(SetEnv(SplitLines(text), key, value));
  }

  /** Each loader, splitting the new file its own way, reads the new value. */
  lemma FileReadersAgree(text: string, key: string, value: string)
    requires ValidKey(key) && SafeValue(value)
    ensures ScriptReads(Rewritten(text, key, value), key) == Some(value)
    ensures DaemonReads(Rewritten(text, key, value), key) == Some(value)
  {
    RewrittenLines(text, key, value);
    BothLoadersAgree(SplitLines(text), key, value);
  }

  /** The script's reading of every other key is unchanged by a rewrite of the file. */
  lemma OtherScriptReadings(text: string, key: string, value: string, other: string)
    requires ValidKey(key) && SafeValue(value) && other != key
    ensures ScriptReads(Rewritten(text, key, value), other) == ScriptReads(text, other)
  {
    RewrittenLines(text, key, value);
    OtherLiveReadings(SplitLines(text), key, value, other);
  }

  /** The daemon's reading of another key is unchanged by a rewrite if and only if
      either the key is an `export` form of the rewritten one, and was not set, or it
      is not, and both splits of the old text give it the same reading. */
  lemma OtherDaemonReadings(text: string, key: string, value: string, other: string)
    requires ValidKey(key) && SafeValue(value) && other != key
    ensures DaemonReads(Rewritten(text, key, value), other) == DaemonReads(text, other) <==>
            (if SeenThrough(other) == Some(key) then DaemonReads(text, other).None?
             else DaemonReads(text, other) == ReadDaemon(SplitLines(text), other))
  {
    RewrittenLines(text, key, value);
    OtherFirstAssignments(SplitLines(text), key, value, other);
  }

  /** In particular, where newlines are the only boundaries of the old text, only set
      `export` forms of the key are lost. */
  lemma OtherDaemonReadingsOfPlainText(text: string, key: string, value: string, other: string)
    requires ValidKey(key) && SafeValue(value) && other != key
    requires NoneOf(text, IsScriptBreak)
    ensures DaemonReads(Rewritten(text, key, value), other) == DaemonReads(text, other) <==>
            !(SeenThrough(other) == Some(key) && DaemonReads(text, other).Some?)
  {
    OtherDaemonReadings(text, key, value, other);
    SplitsAgreeIff([], text);
  }

  // --- inputs on which a reading is lost ---------------------------------

  lemma {:induction false} SplitLast(brk: char -> bool, current: string, line: string)
    requires NoneOf(current + line, brk) && current + line != []
    ensures NoneOf(current, brk) && SplitFrom(brk, current, line) == [current + line]
    decreases |line|
  {
    assert forall k | 0 <= k < |current| :: (current + line)[k] == current[k];
    if line == [] {
      assert current + line == current;
    } else {
      assert (current + line)[|current|] == line[0];
      assert current + [line[0]] + line[1..] == current + line;
      SplitLast(brk, current + [line[0]], line[1..]);
    }
  }

  lemma OneLineFile(text: string)
    requires text != [] && NoneOf(text, IsBreak)
    ensures SplitLines(text) == [text] && NewlineSplit(text) == [text]
  {
    assert [] + text == text;
    SplitLast(IsBreak, [], text);
    SplitLast(IsNewline, [], text);
  }

  /** `export key`, as the daemon's parser names it. */
  function ExportForm(key: string): string { EXPORT + " " + key }

  lemma ExportSeen(key: string)
    requires ValidKey(key)
    ensures SeenThrough(ExportForm(key)) == Some(key)
  {
    var rest := " " + key;
    assert ExportForm(key)[|EXPORT|..] == rest;
    assert rest[1..] == key;
    StripKeeps(key, IsSpace);
    assert Strip(rest) == RStrip(key, IsSpace);
  }

  lemma ExportFormIsClean(key: string)
    requires ValidKey(key)
    ensures var other := ExportForm(key); CleanEnds(other) && '=' !in other && other[0] != '#' && NoneOf(other, IsBreak)
  {
    var lead := EXPORT + " ";
    var other := lead + key;
    assert other[0] == 'e' && other[|other|-1] == key[|key|-1];
    forall k | 0 <= k < |other| ensures other[k] != '=' && !IsBreak(other[k]) {
      if k < |lead| { assert other[k] == lead[k]; } else { assert other[k] == key[k - |lead|]; }
    }
  }

  lemma ExportLine(key: string, value: string)
    requires ValidKey(key) && SafeValue(value)
    ensures var text := Assignment(ExportForm(key), value);
            NoneOf(text, IsBreak) && IsAssignment(text) &&
            DaemonKey(text) == Some(ExportForm(key)) && Value(text) == value
  {
    var other := ExportForm(key);
    ExportFormIsClean(key);
    SafeIsClean(value);
    NoneOfConcat(other, "=", IsBreak);
    NoneOfConcat(other + "=", value, IsBreak);
    hide Value, IsAssignment, DaemonKey, ExportForm, CleanEnds, ValidKey;
    PlainLine(other, value);
  }

  /** Setting a key drops the daemon's reading of the key it calls `export key`. */
  lemma ExportReadingLost(key: string, value: string, next: string)
    requires ValidKey(key) && SafeValue(value) && SafeValue(next)
    ensures var text := Assignment(ExportForm(key), value);
            DaemonReads(text, ExportForm(key)) == Some(value) &&
            DaemonReads(Rewritten(text, key, next), ExportForm(key)) == None
  {
    var other := ExportForm(key);
    var text := Assignment(other, value);
    ExportLine(key, value);
    OneLineFile(text);
    ExportSeen(key);
    RewrittenLines(text, key, next);
    OtherFirstAssignments([text], key, next, other);
    hide SeenThrough, DaemonKey, Value, SetEnv, Rewritten, Assignment, IsAssignment, ExportForm;
    OneLine(text, other);
  }

  /** Two assignments with a boundary between them that only the script honours. */
  function Joined(a: string, v: string, c: char, b: string, w: string): string {
    Assignment(a, v) + [c] + Assignment(b, w)
  }

  /** The daemon reads them as one value. Setting any third key cuts that value short
      and brings the second key to life. */
  lemma ScriptBreakReadingLost(a: string, v: string, c: char, b: string, w: string, key: string, value: string)
    requires ValidKey(a) && ValidKey(b) && ValidKey(key) && a != b && key != a && key != b
    requires SafeValue(v) && SafeValue(w) && SafeValue(value) && IsScriptBreak(c)
    ensures var text := Joined(a, v, c, b, w);
            DaemonReads(text, a) == Some(v + [c] + Assignment(b, w)) && DaemonReads(text, b) == None &&
            DaemonReads(Rewritten(text, key, value), a) == Some(v) &&
            DaemonReads(Rewritten(text, key, value), b) == Some(w)
  {
    var text := Joined(a, v, c, b, w);
    var first, second := Assignment(a, v), Assignment(b, w);
    JoinedForDaemon(a, v, c, b, w);
    JoinedForScript(first, c, second);
    CanonicalLine(a, v);
    CanonicalLine(b, w);
    RewrittenLines(text, key, value);
    ValidKeyNotExported(a);
    ValidKeyNotExported(b);
    OtherFirstAssignments([first, second], key, value, a);
    OtherFirstAssignments([first, second], key, value, b);
    hide SeenThrough, DaemonKey, Value, SetEnv, Rewritten, Assignment, IsAssignment, Joined, LiveKey;
    TwoLines(first, second, a);
    TwoLines(first, second, b);
    OneLine(text, a);
    OneLine(text, b);
  }

  lemma OneLine(line: string, key: string)
    ensures ReadDaemon([line], key) == if DaemonKey(line) == Some(key) then Some(Value(line)) else None
  {
    assert [line][1..] == [];
  }

  lemma TwoLines(first: string, second: string, key: string)
    ensures ReadDaemon([first, second], key) ==
            if DaemonKey(first) == Some(key) then Some(Value(first)) else ReadDaemon([second], key)
    ensures ReadDaemon([second], key) == if DaemonKey(second) == Some(key) then Some(Value(second)) else None
  {
    assert [first, second][1..] == [second];
    OneLine(second, key);
  }

  lemma JoinedForDaemon(a: string, v: string, c: char, b: string, w: string)
    requires ValidKey(a) && ValidKey(b) && SafeValue(v) && SafeValue(w) && IsScriptBreak(c)
    ensures NewlineSplit(Joined(a, v, c, b, w)) == [Joined(a, v, c, b, w)]
    ensures DaemonKey(Joined(a, v, c, b, w)) == Some(a) && IsAssignment(Joined(a, v, c, b, w))
    ensures Value(Joined(a, v, c, b, w)) == v + [c] + Assignment(b, w)
  {
    var text, tail := Joined(a, v, c, b, w), v + [c] + Assignment(b, w);
    assert text == Assignment(a, tail);
    JoinedIsOneLine(Assignment(a, v), c, Assignment(b, w));
    ValidIsClean(a);
    SafeIsClean(v);
    SafeIsClean(w);
    assert tail[0] == v[0] && tail[|tail|-1] == w[|w|-1];
    hide NewlineSplit, ValidKey, SafeValue, IsSpace, IsQuote;
    PlainLine(a, tail);
  }

  lemma JoinedIsOneLine(first: string, c: char, second: string)
    requires NoneOf(first, IsBreak) && NoneOf(second, IsBreak) && IsScriptBreak(c)
    ensures NewlineSplit(first + [c] + second) == [first + [c] + second]
  {
    var text := first + [c] + second;
    NoneOfConcat(first, [c], IsNewline);
    NoneOfConcat(first + [c], second, IsNewline);
    SplitLast(IsNewline, [], text);
    assert [] + text == text;
  }

  lemma JoinedForScript(first: string, c: char, second: string)
    requires first != [] && second != [] && NoneOf(first, IsBreak) && NoneOf(second, IsBreak) && IsScriptBreak(c)
    ensures SplitLines(first + [c] + second) == [first, second]
  {
    SplitAtBreak(IsBreak, [], first, c, second);
    SplitLast(IsBreak, [], second);
    assert [] + first == first && [] + second == second;
  }

  /** The form feed: `A=1`, `B=2`, and K set to 3. */
  lemma FormFeedExample()
    ensures var text := "A=1" + ['\U{C}'] + "B=2";
            DaemonReads(text, "A") == Some("1" + ['\U{C}'] + "B=2") &&
            DaemonReads(Rewritten(text, "K", "3"), "A") == Some("1")
  {
    ScriptBreakReadingLost("A", "1", '\U{C}', "B", "2", "K", "3");
    assert Assignment("A", "1") == "A=1" && Assignment("B", "2") == "B=2";
    hide DaemonReads, Rewritten;
  }
}
