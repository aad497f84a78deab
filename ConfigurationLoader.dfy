/** Reading the configuration from the command line: key/value pairs
    `-source`, `-replica`, `-interval` and `-log`, in any order, each value
    a separate argument that must not start with '-'. A key given twice
    keeps its last value. After parsing, all four values must be present
    and the interval positive. */
module ConfigurationLoader {
  import opened Wrappers
  import opened Text
  import opened Models

  const Source := "-source"
  const Replica := "-replica"
  const Interval := "-interval"
  const Log := "-log"

  const UsageMessage := "Error: No arguments provided.\nUsage example: -source [source path] -replica [replica path] -interval [interval in seconds] -log [log file path]"
  const SourceMissingMessage := "Error: Source path is not provided."
  const ReplicaMissingMessage := "Error: Replica path is not provided."
  const IntervalNotPositiveMessage := "Error: Sync interval must be a positive number."
  const LogMissingMessage := "Error: Log file path is not provided."

  function ExpectedValueMessage(key: string): string {
    "Error: Expected a value after '" + key + "'."
  }

  function IntervalMessage(value: string): string {
    "Error: Interval must be a positive number. Received: " + value + "."
  }

  function UnknownArgumentMessage(key: string): string {
    "Error: Unknown argument '" + key + "'."
  }

  /** The four values `ParseArguments` collects. */
  datatype Arguments = Arguments(sourcePath: string, replicaPath: string, syncInterval: Int32, logFilePath: string)

  /** What the values are before any argument is read. */
  const NoArguments := Arguments("", "", 0, "")

  /** `ValidateArgumentsPresent`. */
  function ValidateArgumentsPresent(args: seq<string>): (r: Status)
    ensures r.Ok? <==> |args| > 0
    ensures r.Err? ==> r.message == UsageMessage
  {
    if |args| == 0 then Err(UsageMessage) else Ok
  }

  /** `AreConfigurationValuesValid`: the first missing value, in the order
      source, replica, interval, log, names the failure. */
  function AreConfigurationValuesValid(sourcePath: string, replicaPath: string, syncInterval: int, logFilePath: string)
    : (r: Status)
    ensures r.Ok? <==> sourcePath != "" && replicaPath != "" && syncInterval > 0 && logFilePath != ""
    ensures sourcePath == "" ==> r == Err(SourceMissingMessage)
    ensures sourcePath != "" && replicaPath == "" ==> r == Err(ReplicaMissingMessage)
    ensures sourcePath != "" && replicaPath != "" && syncInterval <= 0 ==> r == Err(IntervalNotPositiveMessage)
    ensures sourcePath != "" && replicaPath != "" && syncInterval > 0 && logFilePath == "" ==> r == Err(LogMissingMessage)
  {
    if sourcePath == "" then Err(SourceMissingMessage)
    else if replicaPath == "" then Err(ReplicaMissingMessage)
    else if syncInterval <= 0 then Err(IntervalNotPositiveMessage)
    else if logFilePath == "" then Err(LogMissingMessage)
    else Ok
  }

  /** The argument after position `i` is a value: present, non-empty and
      not starting with '-'. */
  predicate HasValue(args: seq<string>, i: nat) {
    i + 1 < |args| && args[i + 1] != "" && !StartsWith(args[i + 1], "-")
  }

  /** The reference reading of the arguments from position `i` on, the
      values read so far being `acc`: one key and its value at a time. */
  function ParseFrom(args: seq<string>, i: nat, acc: Arguments): Result<Arguments>
    requires i <= |args|
    decreases |args| - i
  {
    if i == |args| then Success(acc)
    else if !HasValue(args, i) then Fail(ExpectedValueMessage(args[i]))
    else if args[i] == Source then ParseFrom(args, i + 2, acc.(sourcePath := args[i + 1]))
    else if args[i] == Replica then ParseFrom(args, i + 2, acc.(replicaPath := args[i + 1]))
    else if args[i] == Interval then
      var parsed := TryParseInt32(args[i + 1]);
      if parsed.None? || parsed.value <= 0 then Fail(IntervalMessage(args[i + 1]))
      else ParseFrom(args, i + 2, acc.(syncInterval := parsed.value))
    else if args[i] == Log then ParseFrom(args, i + 2, acc.(logFilePath := args[i + 1]))
    else Fail(UnknownArgumentMessage(args[i]))
  }

  /** What `ParseArguments` returns: the pairs read in order, then the check
      that every value is present. */
  function ParsedArguments(args: seq<string>): Result<Arguments> {
    match ParseFrom(args, 0, NoArguments)
    case Fail(message) => Fail(message)
    case Success(a) =>
      var validation := AreConfigurationValuesValid(a.sourcePath, a.replicaPath, a.syncInterval, a.logFilePath);
      if validation.Err? then Fail(validation.message) else Success(a)
  }

  /** What `LoadConfiguration` returns. */
  function Configuration(args: seq<string>): Result<AppConfig> {
    var validation := ValidateArgumentsPresent(args);
    if validation.Err? then Fail(validation.message)
    else
      match ParsedArguments(args)
      case Fail(message) => Fail(message)
      case Success(a) => Success(AppConfig(a.sourcePath, a.replicaPath, a.syncInterval, a.logFilePath))
  }

  /** `ParseArguments`. */
  method ParseArguments(args: seq<string>) returns (r: Result<Arguments>)
    ensures r == ParsedArguments(args)
  {
    var sourcePath, replicaPath, syncInterval: Int32, logFilePath := "", "", 0, "";
    var i := 0;
    while i < |args|
      invariant 0 <= i <= |args|
      invariant ParseFrom(args, i, Arguments(sourcePath, replicaPath, syncInterval, logFilePath))
                == ParseFrom(args, 0, NoArguments)
      decreases |args| - i
    {
      var nextArg: Option<string> := if i + 1 < |args| then Some(args[i + 1]) else None;
      if IsNullOrEmpty(nextArg) || StartsWith(nextArg.value, "-") {
        return Fail(ExpectedValueMessage(args[i]));
      }
      assert HasValue(args, i);
      ghost var acc := Arguments(sourcePath, replicaPath, syncInterval, logFilePath);
      var key := args[i];
      if key == Source {
        i := i + 1;
        sourcePath := args[i];
        assert ParseFrom(args, i - 1, acc) == ParseFrom(args, i + 1, acc.(sourcePath := args[i]));
      } else if key == Replica {
        i := i + 1;
        replicaPath := args[i];
        assert ParseFrom(args, i - 1, acc) == ParseFrom(args, i + 1, acc.(replicaPath := args[i]));
      } else if key == Interval {
        i := i + 1;
        var parsed := TryParseInt32(args[i]);
        if parsed.None? || parsed.value <= 0 {
          return Fail(IntervalMessage(args[i]));
        }
        syncInterval := parsed.value;
        assert ParseFrom(args, i - 1, acc) == ParseFrom(args, i + 1, acc.(syncInterval := parsed.value));
      } else if key == Log {
        i := i + 1;
        logFilePath := args[i];
        assert ParseFrom(args, i - 1, acc) == ParseFrom(args, i + 1, acc.(logFilePath := args[i]));
      } else {
        return Fail(UnknownArgumentMessage(args[i]));
      }
      i := i + 1;
    }
    var validation := AreConfigurationValuesValid(sourcePath, replicaPath, syncInterval, logFilePath);
    if validation.Err? {
      return Fail(validation.message);
    }
    return Success(Arguments(sourcePath, replicaPath, syncInterval, logFilePath));
  }

  /** `LoadConfiguration`. */
  method LoadConfiguration(args: seq<string>) returns (r: Result<AppConfig>)
    ensures r == Configuration(args)
  {
    var validation := ValidateArgumentsPresent(args);
    if validation.Err? {
      return Fail(validation.message);
    }
    var parseResult := ParseArguments(args);
    if parseResult.Fail? {
      return Fail(parseResult.message);
    }
    var a := parseResult.value;
    return Success(AppConfig(a.sourcePath, a.replicaPath, a.syncInterval, a.logFilePath));
  }

  /** The pair at position `k` is read without error: a known key followed
      by a value, and for the interval a value that parses to a positive
      `int`. */
  predicate GoodPair(args: seq<string>, k: nat)
    requires k < |args|
  {
    HasValue(args, k)
    && (args[k] == Source || args[k] == Replica || args[k] == Log
        || (args[k] == Interval && var v := TryParseInt32(args[k + 1]); v.Some? && v.value > 0))
  }

  /** Reading from position `i` succeeds exactly when every pair from there
      on is good. */
  lemma {:induction false} ParseFromSucceedsExactly(args: seq<string>, i: nat, acc: Arguments)
    requires i <= |args|
    ensures ParseFrom(args, i, acc).Success? <==>
              forall k :: i <= k < |args| && (k - i) % 2 == 0 ==> GoodPair(args, k)
    decreases |args| - i
  {
    if i < |args| {
      if GoodPair(args, i) {
        var next := if args[i] == Source then acc.(sourcePath := args[i + 1])
                    else if args[i] == Replica then acc.(replicaPath := args[i + 1])
                    else if args[i] == Log then acc.(logFilePath := args[i + 1])
                    else acc.(syncInterval := TryParseInt32(args[i + 1]).value);
        assert ParseFrom(args, i, acc) == ParseFrom(args, i + 2, next);
        ParseFromSucceedsExactly(args, i + 2, next);
        if forall k :: i + 2 <= k < |args| && (k - (i + 2)) % 2 == 0 ==> GoodPair(args, k) {
          forall k | i <= k < |args| && (k - i) % 2 == 0
            ensures GoodPair(args, k)
          {
            if k != i {
              assert (k - (i + 2)) % 2 == 0;
            }
          }
        } else {
          var k :| i + 2 <= k < |args| && (k - (i + 2)) % 2 == 0 && !GoodPair(args, k);
          assert (k - i) % 2 == 0;
        }
      }
    }
  }

  /** Reading fails at the first bad pair, with the message of the first
      check that pair misses: a missing value is reported whatever the key,
      then a bad interval, then an unknown key. */
  lemma {:induction false} ParseFromFailsAtFirstBadPair(args: seq<string>, i: nat, acc: Arguments, k: nat)
    requires i <= k < |args| && (k - i) % 2 == 0
    requires forall j :: i <= j < k && (j - i) % 2 == 0 ==> GoodPair(args, j)
    requires !GoodPair(args, k)
    ensures !HasValue(args, k) ==> ParseFrom(args, i, acc) == Fail(ExpectedValueMessage(args[k]))
    ensures HasValue(args, k) && args[k] == Interval ==> ParseFrom(args, i, acc) == Fail(IntervalMessage(args[k + 1]))
    ensures HasValue(args, k) && args[k] != Interval ==> ParseFrom(args, i, acc) == Fail(UnknownArgumentMessage(args[k]))
    decreases k - i
  {
    if i < k {
      assert GoodPair(args, i);
      var next := if args[i] == Source then acc.(sourcePath := args[i + 1])
                  else if args[i] == Replica then acc.(replicaPath := args[i + 1])
                  else if args[i] == Log then acc.(logFilePath := args[i + 1])
                  else acc.(syncInterval := TryParseInt32(args[i + 1]).value);
      assert ParseFrom(args, i, acc) == ParseFrom(args, i + 2, next);
      forall j | i + 2 <= j < k && (j - (i + 2)) % 2 == 0
        ensures GoodPair(args, j)
      {
        assert (j - i) % 2 == 0;
      }
      ParseFromFailsAtFirstBadPair(args, i + 2, next, k);
    }
  }

  /** The pair at position `k`, counted from `i` in steps of two, sets `key`
      and no later pair does. */
  predicate LastPairFrom(args: seq<string>, i: nat, key: string, k: nat) {
    i <= k && k + 1 < |args| && (k - i) % 2 == 0 && args[k] == key
    && forall j :: k < j < |args| && (j - i) % 2 == 0 ==> args[j] != key
  }

  /** No pair from position `i` on sets `key`. */
  predicate KeyAbsentFrom(args: seq<string>, i: nat, key: string) {
    forall k :: i <= k < |args| && (k - i) % 2 == 0 ==> args[k] != key
  }

  lemma LastPairShift(args: seq<string>, i: nat, key: string, k: nat)
    requires LastPairFrom(args, i + 2, key, k)
    ensures LastPairFrom(args, i, key, k)
  {
    forall j | k < j < |args| && (j - i) % 2 == 0
      ensures args[j] != key
    {
      assert (j - (i + 2)) % 2 == 0;
    }
  }

  lemma KeyAbsentShift(args: seq<string>, i: nat, key: string)
    requires i < |args| && args[i] != key && KeyAbsentFrom(args, i + 2, key)
    ensures KeyAbsentFrom(args, i, key)
  {
    forall j | i <= j < |args| && (j - i) % 2 == 0
      ensures args[j] != key
    {
      if j != i {
        assert (j - (i + 2)) % 2 == 0;
      }
    }
  }

  lemma LastPairHere(args: seq<string>, i: nat, key: string)
    requires i + 1 < |args| && args[i] == key && KeyAbsentFrom(args, i + 2, key)
    ensures LastPairFrom(args, i, key, i)
  {
    forall j | i < j < |args| && (j - i) % 2 == 0
      ensures args[j] != key
    {
      assert (j - (i + 2)) % 2 == 0;
    }
  }

  function PathValue(a: Arguments, key: string): string {
    if key == Source then a.sourcePath else if key == Replica then a.replicaPath else a.logFilePath
  }

  /** A path given more than once keeps its last value; a path not given
      keeps the value it had. */
  lemma {:induction false} LastPathValueWins(args: seq<string>, i: nat, acc: Arguments, key: string)
    requires i <= |args|
    requires key == Source || key == Replica || key == Log
    requires ParseFrom(args, i, acc).Success?
    ensures var v := PathValue(ParseFrom(args, i, acc).value, key);
            (KeyAbsentFrom(args, i, key) && v == PathValue(acc, key))
            || exists k :: LastPairFrom(args, i, key, k) && v == args[k + 1]
    decreases |args| - i
  {
    if i < |args| {
      var next := if args[i] == Source then acc.(sourcePath := args[i + 1])
                  else if args[i] == Replica then acc.(replicaPath := args[i + 1])
                  else if args[i] == Log then acc.(logFilePath := args[i + 1])
                  else acc.(syncInterval := TryParseInt32(args[i + 1]).value);
      assert ParseFrom(args, i, acc) == ParseFrom(args, i + 2, next);
      LastPathValueWins(args, i + 2, next, key);
      var v := PathValue(ParseFrom(args, i, acc).value, key);
      if KeyAbsentFrom(args, i + 2, key) && v == PathValue(next, key) {
        if args[i] == key {
          LastPairHere(args, i, key);
        } else {
          KeyAbsentShift(args, i, key);
        }
      } else {
        var k :| LastPairFrom(args, i + 2, key, k) && v == args[k + 1];
        LastPairShift(args, i, key, k);
      }
    }
  }

  /** The interval, likewise, is the value of its last pair. */
  lemma {:induction false} LastIntervalWins(args: seq<string>, i: nat, acc: Arguments)
    requires i <= |args|
    requires ParseFrom(args, i, acc).Success?
    ensures var v := ParseFrom(args, i, acc).value.syncInterval;
            (KeyAbsentFrom(args, i, Interval) && v == acc.syncInterval)
            || exists k :: LastPairFrom(args, i, Interval, k) && TryParseInt32(args[k + 1]) == Some(v)
    decreases |args| - i
  {
    if i < |args| {
      var next := if args[i] == Source then acc.(sourcePath := args[i + 1])
                  else if args[i] == Replica then acc.(replicaPath := args[i + 1])
                  else if args[i] == Log then acc.(logFilePath := args[i + 1])
                  else acc.(syncInterval := TryParseInt32(args[i + 1]).value);
      assert ParseFrom(args, i, acc) == ParseFrom(args, i + 2, next);
      LastIntervalWins(args, i + 2, next);
      var v := ParseFrom(args, i, acc).value.syncInterval;
      if KeyAbsentFrom(args, i + 2, Interval) && v == next.syncInterval {
        if args[i] == Interval {
          LastPairHere(args, i, Interval);
        } else {
          KeyAbsentShift(args, i, Interval);
        }
      } else {
        var k :| LastPairFrom(args, i + 2, Interval, k) && TryParseInt32(args[k + 1]) == Some(v);
        LastPairShift(args, i, Interval, k);
      }
    }
  }

  /** A loaded configuration holds, for each of the four keys, the value of
      the last pair that sets it: every key must have been given. */
  lemma LoadedConfigurationUsesLastValues(args: seq<string>)
    requires Configuration(args).Success?
    ensures var c := Configuration(args).value;
            (exists k :: LastPairFrom(args, 0, Source, k) && c.sourcePath == args[k + 1])
            && (exists k :: LastPairFrom(args, 0, Replica, k) && c.replicaPath == args[k + 1])
            && (exists k :: LastPairFrom(args, 0, Log, k) && c.logFilePath == args[k + 1])
            && (exists k :: LastPairFrom(args, 0, Interval, k) && TryParseInt32(args[k + 1]) == Some(c.syncInterval))
  {
    LoadedValuesAreSet(args);
    var a := ParseFrom(args, 0, NoArguments).value;
    SetPathIsLast(args, a, Source);
    SetPathIsLast(args, a, Replica);
    SetPathIsLast(args, a, Log);
    SetIntervalIsLast(args, a);
  }

  /** A path the parse set comes from the last pair that names it. */
  lemma SetPathIsLast(args: seq<string>, a: Arguments, key: string)
    requires key == Source || key == Replica || key == Log
    requires ParseFrom(args, 0, NoArguments) == Success(a) && PathValue(a, key) != ""
    ensures exists k :: LastPairFrom(args, 0, key, k) && PathValue(a, key) == args[k + 1]
  {
    LastPathValueWins(args, 0, NoArguments, key);
  }

  /** A positive interval comes from the last pair that names it. */
  lemma SetIntervalIsLast(args: seq<string>, a: Arguments)
    requires ParseFrom(args, 0, NoArguments) == Success(a) && a.syncInterval > 0
    ensures exists k :: LastPairFrom(args, 0, Interval, k) && TryParseInt32(args[k + 1]) == Some(a.syncInterval)
  {
    LastIntervalWins(args, 0, NoArguments);
  }

  /** A loaded configuration is the parsed arguments, each of them set. */
  lemma LoadedValuesAreSet(args: seq<string>)
    requires Configuration(args).Success?
    ensures ParseFrom(args, 0, NoArguments).Success?
    ensures var a := ParseFrom(args, 0, NoArguments).value;
            Configuration(args).value == AppConfig(a.sourcePath, a.replicaPath, a.syncInterval, a.logFilePath)
            && a.sourcePath != "" && a.replicaPath != "" && a.syncInterval > 0 && a.logFilePath != ""
  {
  }

  /** Four well-formed pairs load into exactly the configuration they
      describe. */
  lemma LoadWellFormedArguments(sourcePath: string, replicaPath: string, interval: Int32, logFilePath: string)
    requires sourcePath != "" && !StartsWith(sourcePath, "-")
    requires replicaPath != "" && !StartsWith(replicaPath, "-")
    requires logFilePath != "" && !StartsWith(logFilePath, "-")
    requires interval > 0
    ensures Configuration([Source, sourcePath, Replica, replicaPath, Interval, IntToString(interval), Log, logFilePath])
            == Success(AppConfig(sourcePath, replicaPath, interval, logFilePath))
  {
    var args := [Source, sourcePath, Replica, replicaPath, Interval, IntToString(interval), Log, logFilePath];
    ParseIntToString(interval);
    assert IntToString(interval)[0] != '-';
    var a1 := NoArguments.(sourcePath := sourcePath);
    var a2 := a1.(replicaPath := replicaPath);
    var a3 := a2.(syncInterval := interval);
    var a4 := a3.(logFilePath := logFilePath);
    assert ParseFrom(args, 6, a3) == ParseFrom(args, 8, a4);
    assert ParseFrom(args, 4, a2) == ParseFrom(args, 6, a3);
    assert ParseFrom(args, 2, a1) == ParseFrom(args, 4, a2);
    assert ParseFrom(args, 0, NoArguments) == ParseFrom(args, 2, a1);
  }
}
