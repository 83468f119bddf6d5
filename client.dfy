/**
 * The decision logic of the load-testing client, without its network,
 * clock and file-system plumbing: which strings are sent, how one response
 * is classified, which results count as successes, what the output file is
 * called, which port an environment uses, and what the report file holds.
 */
module Client {
  import opened Text

  datatype Option<T> = None | Some(value: T)

  /** The roll number hard-coded into every output file name. */
  const RollNumber: string := "CE21B097"

  /** The ten fixed strings sent when exactly ten strings are requested. */
  const Strings10: seq<string> := [
    "5PKOHCL60uxRd0xXHQ", "JHfJtHH9", "gZFEMAS2JA", "NkmPgjT2uMwWvQ9",
    "1V0NTS", "tcmViV3cxd6J794H", "SKZpKaksPB1", "5ygFfJXEgn7ssgyus",
    "mvZ5wv7qfk", "tD58eeUOLh"
  ]

  /** The `count` characters from `first` on, in code-point order. */
  function CharRange(first: char, count: nat): string
    requires first as int + count <= 0xD800
  {
    seq(count, i requires 0 <= i < count => (first as int + i) as char)
  }

  /** `string.ascii_lowercase`, `string.ascii_uppercase` and `string.digits`. */
  const AsciiLowercase: string := CharRange('a', 26)
  const AsciiUppercase: string := CharRange('A', 26)
  const Digits: string := CharRange('0', 10)

  /** `string.ascii_letters + string.digits`: the 62 characters strings are drawn from. */
  const Alphabet: string := AsciiLowercase + AsciiUppercase + Digits

  /** The default length of a generated string. */
  const DefaultLength: nat := 15

  predicate IsAlphanumeric(c: char)
  {
    'a' <= c <= 'z' || 'A' <= c <= 'Z' || '0' <= c <= '9'
  }

  predicate AllAlphanumeric(s: string)
  {
    forall i :: 0 <= i < |s| ==> IsAlphanumeric(s[i])
  }

  /** The alphabet holds exactly the ASCII letters and digits. */
  lemma AlphabetIsAlphanumeric(c: char)
    ensures c in Alphabet <==> IsAlphanumeric(c)
  {
    assert |Alphabet| == 62;
    if IsAlphanumeric(c) {
      var k := if 'a' <= c <= 'z' then c as int - 'a' as int
               else if 'A' <= c <= 'Z' then 26 + c as int - 'A' as int
               else 52 + c as int - '0' as int;
      assert Alphabet[k] == c;
    }
    if c in Alphabet {
      var k :| 0 <= k < 62 && Alphabet[k] == c;
      if k < 26 {
        assert c == AsciiLowercase[k];
      } else if k < 52 {
        assert c == AsciiUppercase[k - 26];
      } else {
        assert c == Digits[k - 52];
      }
    }
  }

  // ---------------------------------------------------------------------------
  // generate_random_string
  // ---------------------------------------------------------------------------

  /** What `random.choices` drew: one index into the alphabet per character. */
  predicate ValidDraws(draws: seq<nat>)
  {
    forall k :: 0 <= k < |draws| ==> draws[k] < |Alphabet|
  }

  /** `generate_random_string`, given the random choices as explicit draws. */
  function GenerateRandomString(draws: seq<nat>): (s: string)
    requires ValidDraws(draws)
    ensures |s| == |draws| && AllAlphanumeric(s)
  {
    var s := seq(|draws|, i requires 0 <= i < |draws| => Alphabet[draws[i]]);
    assert forall i :: 0 <= i < |s| ==> IsAlphanumeric(s[i]) by {
      forall i | 0 <= i < |s| ensures IsAlphanumeric(s[i]) {
        AlphabetIsAlphanumeric(s[i]);
      }
    }
    s
  }

  /** The index of an alphabet character. */
  ghost function IndexInAlphabet(c: char): (k: nat)
    requires IsAlphanumeric(c)
    ensures k < |Alphabet| && Alphabet[k] == c
  {
    AlphabetIsAlphanumeric(c);
    var k :| 0 <= k < |Alphabet| && Alphabet[k] == c;
    k
  }

  /** Every alphanumeric string of a length can be generated: the alphabet is all of it. */
  lemma GenerateRandomStringCovers(s: string)
    requires AllAlphanumeric(s)
    ensures exists draws :: ValidDraws(draws) && GenerateRandomString(draws) == s
  {
    var draws := seq(|s|, i requires 0 <= i < |s| => IndexInAlphabet(s[i]));
    assert GenerateRandomString(draws) == s;
  }

  // ---------------------------------------------------------------------------
  // strings_to_send
  // ---------------------------------------------------------------------------

  /** Python's `range(n)` length: zero for a negative n. */
  function RangeLength(n: int): nat { if n < 0 then 0 else n }

  /** The draws needed for `num_strings` generated strings of the default length. */
  predicate ValidStringDraws(numStrings: int, draws: seq<seq<nat>>)
  {
    numStrings != 10 ==>
      |draws| == RangeLength(numStrings) &&
      forall k :: 0 <= k < |draws| ==> |draws[k]| == DefaultLength && ValidDraws(draws[k])
  }

  /** Every one of the ten fixed strings is alphanumeric. */
  lemma Strings10Alphanumeric()
    ensures forall k :: 0 <= k < |Strings10| ==> AllAlphanumeric(Strings10[k])
  {
  }

  /** `strings_to_send`: the fixed list for ten, otherwise that many generated strings. */
  function StringsToSend(numStrings: int, draws: seq<seq<nat>>): (strs: seq<string>)
    requires ValidStringDraws(numStrings, draws)
    ensures |strs| == RangeLength(numStrings)
    ensures numStrings == 10 ==> strs == Strings10
    ensures numStrings != 10 ==> forall k :: 0 <= k < |strs| ==> |strs[k]| == DefaultLength
    ensures forall k :: 0 <= k < |strs| ==> AllAlphanumeric(strs[k])
  {
    if numStrings == 10 then
      Strings10Alphanumeric();
      Strings10
    else
      seq(|draws|, k requires 0 <= k < |draws| => GenerateRandomString(draws[k]))
  }

  // ---------------------------------------------------------------------------
  // send_request: one response, classified
  // ---------------------------------------------------------------------------

  /**
   * The body of a received response: a JSON object (its fields), or content
   * that `response.json()` refuses because it is not declared as JSON.
   */
  datatype Body = JsonObject(fields: map<string, string>) | NotJson

  /** What the network produced for one request. */
  datatype Response =
    | Received(status: int, body: Body)
    | TransportFailure   // a client error or the timeout

  /** The outcome of one request. */
  datatype Outcome =
    | Success(time: real, original: string, reversed: string)
    | HttpError(code: int)
    | ConnectionError

  /** The placeholder recorded when the response lacks `reversed_string`. */
  const KeyError: string := "KEY_ERROR"

  /** `data.get("reversed_string", "KEY_ERROR")`. */
  function ReversedField(fields: map<string, string>): string
  {
    if "reversed_string" in fields then fields["reversed_string"] else KeyError
  }

  /**
   * `send_request` for input `input`, given what came back and the elapsed
   * monotonic time. A 200 whose body is not JSON raises a client error inside
   * the `try`, and so is a connection error too.
   */
  function SendRequest(input: string, response: Response, elapsed: real): (o: Outcome)
    ensures o.Success? <==> response.Received? && response.status == 200 && response.body.JsonObject?
    ensures o.Success? ==> o.time == elapsed && o.original == input &&
                           o.reversed == ReversedField(response.body.fields)
    ensures o.HttpError? <==> response.Received? && response.status != 200
    ensures o.HttpError? ==> o.code == response.status
  {
    match response
    case TransportFailure => ConnectionError
    case Received(status, body) =>
      if status != 200 then HttpError(status)
      else match body
        case JsonObject(fields) => Success(elapsed, input, ReversedField(fields))
        case NotJson => ConnectionError
  }

  /** The `"status"` entry of the result dictionary. */
  function StatusLabel(o: Outcome): (status: string)
    ensures |status| > 0
    ensures status[0] == 'S' <==> o.Success?
    ensures status[0] == 'H' <==> o.HttpError?
    ensures status[0] == 'C' <==> o.ConnectionError?
  {
    match o
    case Success(_, _, _) => "SUCCESS"
    case HttpError(code) => "HTTP_" + IntToDecimal(code)
    case ConnectionError => "CONNECTION_ERROR"
  }

  /** The label is "SUCCESS" exactly for successes. */
  lemma SuccessLabel(o: Outcome)
    ensures StatusLabel(o) == "SUCCESS" <==> o.Success?
  {
    if o.HttpError? {
      assert StatusLabel(o)[0] == 'H';
    }
  }

  /** Labels determine the outcome kind, and an HTTP label its status code. */
  lemma StatusLabelInjective(a: Outcome, b: Outcome)
    requires StatusLabel(a) == StatusLabel(b)
    ensures a.Success? <==> b.Success?
    ensures a.HttpError? <==> b.HttpError?
    ensures a.HttpError? ==> a.code == b.code
  {
    if a.HttpError? && b.HttpError? {
      assert StatusLabel(a)[5..] == IntToDecimal(a.code);
      assert StatusLabel(b)[5..] == IntToDecimal(b.code);
      IntToDecimalInjective(a.code, b.code);
    }
  }

  /** How each kind of response is labelled, read off the response alone. */
  lemma SendRequestLabel(input: string, response: Response, elapsed: real)
    ensures StatusLabel(SendRequest(input, response, elapsed)) ==
      match response
      case Received(status, JsonObject(_)) =>
        if status == 200 then "SUCCESS" else "HTTP_" + IntToDecimal(status)
      case Received(status, NotJson) =>
        if status == 200 then "CONNECTION_ERROR" else "HTTP_" + IntToDecimal(status)
      case TransportFailure => "CONNECTION_ERROR"
  {
  }

  /** `asyncio.gather` keeps task order: result k belongs to string k. */
  function GatherResults(strs: seq<string>, responses: seq<Response>, elapsed: seq<real>): (results: seq<Outcome>)
    requires |responses| == |strs| && |elapsed| == |strs|
    ensures |results| == |strs|
    ensures forall k :: 0 <= k < |results| && results[k].Success? ==>
              results[k].original == strs[k] && results[k].time == elapsed[k]
  {
    seq(|strs|, k requires 0 <= k < |strs| => SendRequest(strs[k], responses[k], elapsed[k]))
  }

  // ---------------------------------------------------------------------------
  // successful_requests
  // ---------------------------------------------------------------------------

  /** `[r for r in results if r.get("status") == "SUCCESS"]`. */
  function SuccessfulRequests(results: seq<Outcome>): (succ: seq<Outcome>)
    ensures |succ| <= |results|
    ensures forall o :: o in succ <==> o in results && o.Success?
    ensures AllSuccesses(succ)
  {
    if results == [] then []
    else
      SuccessLabel(results[0]);
      (if StatusLabel(results[0]) == "SUCCESS" then [results[0]] else []) + SuccessfulRequests(results[1..])
  }

  /** Filtering distributes over concatenation: the order of the successes is kept. */
  lemma {:induction false} SuccessfulRequestsAppend(a: seq<Outcome>, b: seq<Outcome>)
    ensures SuccessfulRequests(a + b) == SuccessfulRequests(a) + SuccessfulRequests(b)
  {
    if a != [] {
      assert (a + b)[0] == a[0];
      assert (a + b)[1..] == a[1..] + b;
      SuccessfulRequestsAppend(a[1..], b);
    } else {
      assert a + b == b;
    }
  }

  /** Filtering a filtered list changes nothing. */
  lemma {:induction false} SuccessfulRequestsIdempotent(results: seq<Outcome>)
    ensures SuccessfulRequests(SuccessfulRequests(results)) == SuccessfulRequests(results)
  {
    if results != [] {
      SuccessfulRequestsIdempotent(results[1..]);
      SuccessLabel(results[0]);
      var head := if results[0].Success? then [results[0]] else [];
      SuccessfulRequestsAppend(head, SuccessfulRequests(results[1..]));
    }
  }

  /** `response_times`: the latencies of the successes, in order. */
  function ResponseTimes(succ: seq<Outcome>): (times: seq<real>)
    requires AllSuccesses(succ)
    ensures |times| == |succ|
    ensures forall k :: 0 <= k < |times| ==> times[k] == succ[k].time
  {
    seq(|succ|, k requires 0 <= k < |succ| => succ[k].time)
  }

  /**
   * The successes that sending `strs` yields, read off the responses alone:
   * for each 200 carrying a JSON object, in request order, its latency, its
   * string and the `reversed_string` it returned.
   */
  function SuccessOutcomes(strs: seq<string>, responses: seq<Response>, elapsed: seq<real>): (succ: seq<Outcome>)
    requires |responses| == |strs| && |elapsed| == |strs|
    ensures |succ| <= |strs|
  {
    if strs == [] then []
    else
      (if Succeeds(responses[0]) then [Success(elapsed[0], strs[0], ReversedField(responses[0].body.fields))] else []) +
      SuccessOutcomes(strs[1..], responses[1..], elapsed[1..])
  }

  /**
   * The kept results are exactly the successes of the responses, in order,
   * each with its own string, latency and `reversed_string`.
   */
  lemma {:induction false} GatheredSuccesses(strs: seq<string>, responses: seq<Response>, elapsed: seq<real>)
    requires |responses| == |strs| && |elapsed| == |strs|
    ensures SuccessfulRequests(GatherResults(strs, responses, elapsed)) == SuccessOutcomes(strs, responses, elapsed)
  {
    if strs != [] {
      var results := GatherResults(strs, responses, elapsed);
      assert results[1..] == GatherResults(strs[1..], responses[1..], elapsed[1..]);
      GatheredSuccesses(strs[1..], responses[1..], elapsed[1..]);
      SuccessLabel(results[0]);
    }
  }

  /** The latencies of two lists of successes are the latencies of each, in order. */
  lemma ResponseTimesAppend(a: seq<Outcome>, b: seq<Outcome>)
    requires AllSuccesses(a) && AllSuccesses(b)
    ensures AllSuccesses(a + b) && ResponseTimes(a + b) == ResponseTimes(a) + ResponseTimes(b)
  {
  }

  /** Whether a response makes its request a success: a 200 carrying a JSON object. */
  predicate Succeeds(response: Response)
  {
    response.Received? && response.status == 200 && response.body.JsonObject?
  }

  /** The measured latencies of the requests whose response succeeded, in request order. */
  function SuccessElapsed(responses: seq<Response>, elapsed: seq<real>): (times: seq<real>)
    requires |elapsed| == |responses|
    ensures |times| <= |responses|
  {
    if responses == [] then []
    else (if Succeeds(responses[0]) then [elapsed[0]] else []) + SuccessElapsed(responses[1..], elapsed[1..])
  }

  /**
   * The mean is taken over exactly the latencies of the successful requests,
   * in the order the strings were sent.
   */
  lemma {:induction false} ResponseTimesAreSuccessLatencies(strs: seq<string>, responses: seq<Response>, elapsed: seq<real>)
    requires |responses| == |strs| && |elapsed| == |strs|
    ensures ResponseTimes(SuccessfulRequests(GatherResults(strs, responses, elapsed))) == SuccessElapsed(responses, elapsed)
  {
    if strs != [] {
      var results := GatherResults(strs, responses, elapsed);
      assert results[1..] == GatherResults(strs[1..], responses[1..], elapsed[1..]);
      ResponseTimesAreSuccessLatencies(strs[1..], responses[1..], elapsed[1..]);
      SuccessLabel(results[0]);
      var head := if results[0].Success? then [results[0]] else [];
      ResponseTimesAppend(head, SuccessfulRequests(results[1..]));
    }
  }

  // ---------------------------------------------------------------------------
  // Output path and port
  // ---------------------------------------------------------------------------

  /** `os.path.join(dir, name)` for two components on POSIX. */
  function JoinPath(dir: string, name: string): string
  {
    if |name| > 0 && name[0] == '/' then name
    else if dir == [] || dir[|dir| - 1] == '/' then dir + name
    else dir + "/" + name
  }

  predicate StartsWith(s: string, prefix: string)
  {
    |prefix| <= |s| && s[..|prefix|] == prefix
  }

  predicate EndsWith(s: string, suffix: string)
  {
    |suffix| <= |s| && s[|s| - |suffix|..] == suffix
  }

  /**
   * `os.path.join` keeps both parts: an absolute name replaces the directory,
   * otherwise the path starts with the directory and ends with the name,
   * with one separator between them when the directory does not end in one.
   */
  lemma JoinPathKeepsParts(dir: string, name: string)
    ensures |name| > 0 && name[0] == '/' ==> JoinPath(dir, name) == name
    ensures !(|name| > 0 && name[0] == '/') ==>
              StartsWith(JoinPath(dir, name), dir) && EndsWith(JoinPath(dir, name), name)
    ensures !(|name| > 0 && name[0] == '/') && dir != [] && dir[|dir| - 1] != '/' ==>
              JoinPath(dir, name) == dir + "/" + name
  {
  }

  /** `outputs/<environment.capitalize()>`. */
  function OutputDir(environment: string): string
  {
    JoinPath("outputs", Capitalize(environment))
  }

  /** `f"{ROLL_NUMBER}{environment.lower()}{num_strings}.txt"`. */
  function FileName(environment: string, numStrings: int): string
  {
    RollNumber + Lower(environment) + IntToDecimal(numStrings) + ".txt"
  }

  /** `os.path.join(output_dir, filename)`: the file sits in the environment's folder. */
  function FilePath(environment: string, numStrings: int): string
  {
    JoinPath(OutputDir(environment), FileName(environment, numStrings))
  }

  predicate NoSlash(s: string) { forall i :: 0 <= i < |s| ==> s[i] != '/' }

  /** For an environment name without slashes, the path is the documented layout. */
  lemma FilePathLayout(environment: string, numStrings: int)
    requires environment != [] && NoSlash(environment)
    ensures FilePath(environment, numStrings) ==
      "outputs/" + Capitalize(environment) + "/" + RollNumber + Lower(environment) +
      IntToDecimal(numStrings) + ".txt"
    ensures Lower(Capitalize(environment)) == Lower(environment)
  {
    var dir := Capitalize(environment);
    assert dir[0] == UpperChar(environment[0]);
    assert dir[|dir| - 1] != '/';
    CapitalizeSameLetters(environment);
  }

  /** The environments the command line accepts. */
  const Environments: set<string> := {"dockerswarm", "kubernetes"}

  /** For one environment, the file name determines the string count. */
  lemma FilePathCountInjective(environment: string, n1: int, n2: int)
    requires environment != [] && NoSlash(environment)
    requires FilePath(environment, n1) == FilePath(environment, n2)
    ensures n1 == n2
  {
    FilePathLayout(environment, n1);
    FilePathLayout(environment, n2);
    var p := "outputs/" + Capitalize(environment) + "/" + RollNumber + Lower(environment);
    var d1, d2 := IntToDecimal(n1), IntToDecimal(n2);
    var f := FilePath(environment, n1);
    assert f == p + d1 + ".txt" && f == p + d2 + ".txt";
    assert |d1| == |d2|;
    assert d1 == f[|p|..|p| + |d1|] == d2;
    IntToDecimalInjective(n1, n2);
  }

  /** The folder of each accepted environment starts with a different letter. */
  lemma FilePathFolderLetter(environment: string, n: int)
    requires environment in Environments
    ensures |FilePath(environment, n)| > 8
    ensures FilePath(environment, n)[8] == if environment == "dockerswarm" then 'D' else 'K'
  {
    FilePathLayout(environment, n);
    var dir := Capitalize(environment);
    assert dir[0] == UpperChar(environment[0]);
    assert ("outputs/" + dir + "/")[8] == dir[0];
  }

  /** Different experiments over the accepted environments write different files. */
  lemma FilePathInjective(env1: string, n1: int, env2: string, n2: int)
    requires env1 in Environments && env2 in Environments
    requires FilePath(env1, n1) == FilePath(env2, n2)
    ensures env1 == env2 && n1 == n2
  {
    FilePathFolderLetter(env1, n1);
    FilePathFolderLetter(env2, n2);
    assert env1 == env2;
    FilePathCountInjective(env1, n1, n2);
  }

  /** The server port for an environment. */
  function PortFor(environment: string): (port: int)
    ensures port == 5001 || port == 5002
    ensures port == 5001 <==> environment == "dockerswarm"
  {
    if environment == "dockerswarm" then 5001 else 5002
  }

  // ---------------------------------------------------------------------------
  // main: which experiments run
  // ---------------------------------------------------------------------------

  datatype Experiment = Experiment(environment: string, port: int, numStrings: int)

  /** The four standard evaluation runs, in order. */
  const StandardExperiments: seq<Experiment> := [
    Experiment("dockerswarm", 5001, 10),
    Experiment("kubernetes", 5002, 10),
    Experiment("dockerswarm", 5001, 10000),
    Experiment("kubernetes", 5002, 10000)
  ]

  /**
   * The experiments `main` runs: one when both `--environment` and
   * `--strings` are given and truthy (a count of 0 is falsy), otherwise the
   * four standard ones.
   */
  function Plan(environment: Option<string>, strings: Option<int>): (plan: seq<Experiment>)
    ensures |plan| >= 1
    ensures forall k :: 0 <= k < |plan| ==> plan[k].port == PortFor(plan[k].environment)
    ensures (environment.Some? && environment.value != "" && strings.Some? && strings.value != 0) ==>
              plan == [Experiment(environment.value, PortFor(environment.value), strings.value)]
    ensures !(environment.Some? && environment.value != "" && strings.Some? && strings.value != 0) ==>
              |plan| == 4 &&
              (forall k :: 0 <= k < 4 ==> plan[k].environment == (if k % 2 == 0 then "dockerswarm" else "kubernetes")) &&
              (forall k :: 0 <= k < 4 ==> plan[k].environment in Environments) &&
              (forall k :: 0 <= k < 4 ==> plan[k].numStrings == (if k < 2 then 10 else 10000))
  {
    if environment.Some? && environment.value != "" && strings.Some? && strings.value != 0 then
      [Experiment(environment.value, PortFor(environment.value), strings.value)]
    else
      StandardExperiments
  }

  /** The planned experiments write pairwise distinct files. */
  lemma PlanFilesDistinct(environment: Option<string>, strings: Option<int>)
    requires environment.Some? ==> environment.value in Environments
    ensures var plan := Plan(environment, strings);
      forall j, k :: 0 <= j < k < |plan| ==>
        FilePath(plan[j].environment, plan[j].numStrings) != FilePath(plan[k].environment, plan[k].numStrings)
  {
    var plan := Plan(environment, strings);
    forall j, k | 0 <= j < k < |plan|
      ensures FilePath(plan[j].environment, plan[j].numStrings) != FilePath(plan[k].environment, plan[k].numStrings)
    {
      if FilePath(plan[j].environment, plan[j].numStrings) == FilePath(plan[k].environment, plan[k].numStrings) {
        FilePathInjective(plan[j].environment, plan[j].numStrings, plan[k].environment, plan[k].numStrings);
      }
    }
  }

  // ---------------------------------------------------------------------------
  // The report file
  // ---------------------------------------------------------------------------

  /** The whole file when no request succeeded. */
  const FailureText: string := "Test failed. No successful requests.\n"

  predicate AllSuccesses(succ: seq<Outcome>)
  {
    forall k :: 0 <= k < |succ| ==> succ[k].Success?
  }

  function OriginalLine(o: Outcome): string
    requires o.Success?
  {
    "Original: " + o.original + "\n"
  }

  function ReversedLine(o: Outcome): string
    requires o.Success?
  {
    "Reversed: " + o.reversed + "\n\n"
  }

  /** The two lines and the blank line written per success in a ten-string run. */
  function SuccessBlock(o: Outcome): string
    requires o.Success?
  {
    OriginalLine(o) + ReversedLine(o)
  }

  function SuccessBlocks(succ: seq<Outcome>): string
    requires AllSuccesses(succ)
  {
    if succ == [] then "" else SuccessBlock(succ[0]) + SuccessBlocks(succ[1..])
  }

  /** The blocks of two lists of successes are the blocks of each, in order. */
  lemma {:induction false} SuccessBlocksAppend(a: seq<Outcome>, b: seq<Outcome>)
    requires AllSuccesses(a) && AllSuccesses(b)
    ensures SuccessBlocks(a + b) == SuccessBlocks(a) + SuccessBlocks(b)
  {
    if a != [] {
      assert (a + b)[0] == a[0];
      assert (a + b)[1..] == a[1..] + b;
      SuccessBlocksAppend(a[1..], b);
    } else {
      assert a + b == b;
    }
  }

  function AverageLine(meanText: string): string
  {
    "average_response_time=" + meanText + "\n"
  }

  /**
   * The report file for a run of `numStrings` strings with these results.
   * `formatMean` stands for `statistics.mean` followed by `:.4f` formatting,
   * applied to the success latencies; it is only consulted when some
   * request succeeded.
   */
  function ReportText(numStrings: int, results: seq<Outcome>, formatMean: seq<real> -> string): string
  {
    var succ := SuccessfulRequests(results);
    if succ == [] then FailureText else ReportLayout(numStrings, succ, formatMean(ResponseTimes(succ)))
  }

  /** The report once some request succeeded: the blocks (ten-string runs only), then the average. */
  function ReportLayout(numStrings: int, succ: seq<Outcome>, meanText: string): string
    requires AllSuccesses(succ)
  {
    if numStrings == 10 then SuccessBlocks(succ) + AverageLine(meanText) else AverageLine(meanText)
  }

  /** A report is the failure text exactly when no request succeeded. */
  lemma ReportFailedIff(numStrings: int, results: seq<Outcome>, formatMean: seq<real> -> string)
    ensures ReportText(numStrings, results, formatMean) == FailureText <==> SuccessfulRequests(results) == []
  {
    var succ := SuccessfulRequests(results);
    if succ != [] {
      var text := ReportText(numStrings, results, formatMean);
      if numStrings == 10 {
        assert text[0] == 'O';
      } else {
        assert text[0] == 'a';
      }
      assert FailureText[0] == 'T';
    }
  }

  /** Without a success the mean is never used: any formatting gives the same file. */
  lemma ReportIgnoresMeanOnFailure(numStrings: int, results: seq<Outcome>, f: seq<real> -> string, g: seq<real> -> string)
    requires SuccessfulRequests(results) == []
    ensures ReportText(numStrings, results, f) == ReportText(numStrings, results, g)
  {
  }

  /** The blocks of a prefix one longer: the block of the next success appended. */
  lemma SuccessBlocksSnoc(succ: seq<Outcome>, k: nat)
    requires AllSuccesses(succ) && k < |succ|
    ensures SuccessBlocks(succ[..k + 1]) == SuccessBlocks(succ[..k]) + SuccessBlock(succ[k])
  {
    assert succ[..k + 1] == succ[..k] + [succ[k]];
    SuccessBlocksAppend(succ[..k], [succ[k]]);
  }

  /** The blocks of a list split around any one of its successes. */
  lemma SuccessBlocksSplit(succ: seq<Outcome>, k: nat)
    requires AllSuccesses(succ) && k < |succ|
    ensures SuccessBlocks(succ) == SuccessBlocks(succ[..k]) + SuccessBlock(succ[k]) + SuccessBlocks(succ[k + 1..])
  {
    assert succ == succ[..k] + succ[k..];
    SuccessBlocksAppend(succ[..k], succ[k..]);
    assert succ[k..][0] == succ[k] && succ[k..][1..] == succ[k + 1..];
  }

  /** In a ten-string run, every success contributes its block, in order, before the average. */
  lemma ReportTenListsSuccesses(results: seq<Outcome>, formatMean: seq<real> -> string, k: nat)
    requires k < |SuccessfulRequests(results)|
    ensures var succ := SuccessfulRequests(results);
      ReportText(10, results, formatMean) ==
        SuccessBlocks(succ[..k]) + SuccessBlock(succ[k]) + SuccessBlocks(succ[k + 1..]) +
        AverageLine(formatMean(ResponseTimes(succ)))
  {
    var succ := SuccessfulRequests(results);
    SuccessBlocksSplit(succ, k);
  }
}
