# Reversal/prime load test: a Dafny model

This project models the sequential logic of a small two-part load test.

- **The prime-counting endpoint** (`server.py`). `is_prime` checks primality by trial division up to the square root. The request handler lists the primes below 15000 and reports how many it found (`primes_found`).
- **The client** (`client.py`). It does the following:
  - picks the strings to send: the ten fixed strings, or that many random 15-character alphanumeric strings;
  - classifies each response as `SUCCESS`, `HTTP_<code>` or `CONNECTION_ERROR`;
  - keeps the successes;
  - names the output file `outputs/<Env>/CE21B097<env><n>.txt`;
  - chooses port 5001 or 5002;
  - writes the report;
  - runs either one experiment or the four standard ones.

Files:

- `text.dfy` (module `Text`): Python's `str(int)`, plus ASCII `lower()` and `capitalize()`. `str(n)` is proved to read back to n, from its sign and its digit string, so it is injective on all integers.
- `server.dfy` (module `Server`): `is_prime` as a loop method, proved equal to the mathematical definition of a prime. The square-root bound is proved sound and complete. The list of primes is proved to be exactly the primes below the limit, in increasing order. Its length is the number of primes below the limit.
- `client.dfy` (module `Client`): the pure decision logic of the client as functions, with lemmas about them.
- `client_run.dfy` (module `ClientRun`): `run_experiment` and the experiment loop of `main` as imperative methods. They act on an `OutputFiles` object, a map from path to file contents. The report-writing loop is kept as a loop.

Network responses, latencies, random draws and the formatting of the mean latency are parameters of the model. The code has no rate-paced dispatch, circuit breaker or cross-run aggregation, and it uses a 20-second per-request timeout. The model follows the code.

## Model

| member | source | states |
|---|---|---|
| `Server.IsPrime` | server.py:7-15 | Returns false for every n <= 1. For n >= 2 it returns false exactly when some d with 2 <= d and d*d <= n divides n. Its result equals primality: n > 1 and no divisor in [2, n). |
| `Server.PrimeIffNoDivisorUpToRoot` | server.py:12-14 | For n >= 2, n is prime iff no d with 2 <= d and d*d <= n divides n. So checking only up to the square root is sound and complete. |
| `Server.DivisorUpToRoot` | server.py:12 | A proper divisor of n implies a divisor no larger than the square root: either itself or its cofactor. |
| `Server.SmallPrimes` | server.py:12-15 | 2 and 3 are prime, and neither has a divisor d >= 2 with d*d <= n, so the loop's range is empty for both. |
| `Server.PrimesBelow` | server.py:27 | The comprehension's list as a specification: at most `limit` entries, each a prime below the limit. |
| `Server.PrimesBelowMembers` | server.py:27 | A number is in the comprehension's list iff it lies in [0, limit) and is prime. |
| `Server.PrimesBelowIncreasing` | server.py:27 | The list is strictly increasing, following `range` order. |
| `Server.PrimesBelowCount` | server.py:34 | The list's length equals the number of primes below the limit, counted as a set cardinality. |
| `Server.ListPrimes` | server.py:26-27 | The loop builds exactly the specified list. It contains every prime below the limit and only primes, in strictly increasing order. |
| `Server.ProcessRequest` | server.py:26-34 | `primes_found` is the number of primes below 15000. |
| `Text.DecimalRoundTrip` | client.py:43 | Reading back the decimal digits of `str(n)` gives n for every n >= 0. |
| `Text.IntToDecimal` | client.py:59 | `str(n)` is non-empty, and it starts with `-` exactly when n is negative. |
| `Text.IntToDecimalRoundTrip` | client.py:59 | For every integer n, the digits of `str(n)` read back to n, or to -n after the leading `-` when n is negative. |
| `Text.IntToDecimalInjective` | client.py:59 | Distinct integers render as distinct `str(n)` strings. |
| `Text.Lower` | client.py:59 | `lower()` keeps the length and leaves no upper-case ASCII letter. Each character is kept or is an upper-case letter turned into its lower-case form. |
| `Text.Capitalize` | client.py:51 | `capitalize()` keeps the length. The first character is not a lower-case letter, and no later character is an upper-case letter. |
| `Text.CapitalizeSameLetters` | client.py:51 | The capitalised folder name and the lower-cased file-name part differ only in case. |
| `Client.AlphabetIsAlphanumeric` | client.py:25 | A character is in `ascii_letters + digits` iff it is an ASCII letter or digit. |
| `Client.GenerateRandomString` | client.py:23-25 | The generated string has exactly one character per draw, and every character is alphanumeric. |
| `Client.GenerateRandomStringCovers` | client.py:25 | Every alphanumeric string is produced by some choice of draws, so no character of the alphabet is missed. |
| `Client.Strings10Alphanumeric` | client.py:17-21 | Each of the ten fixed strings is alphanumeric. |
| `Client.StringsToSend` | client.py:66 | For 10 the result is the fixed list. Otherwise it is that many default-length strings. The length is the count, or 0 for a negative count. Every string is alphanumeric. |
| `Client.SendRequest` | client.py:27-45 | Status 200 with a JSON body gives a success carrying the elapsed time, the original string and `reversed_string`, or `KEY_ERROR` when that key is absent. Any other received status s gives an HTTP error with code s. A transport failure, or a 200 whose body is not JSON, gives a connection error. |
| `Client.StatusLabel` | client.py:40-45 | The `"status"` entry is non-empty. Its first character is `S`, `H` or `C` exactly for a success, an HTTP error or a connection error. |
| `Client.SendRequestLabel` | client.py:33-45 | The status label of each kind of response is `SUCCESS`, `HTTP_` followed by `str(status)`, or `CONNECTION_ERROR`. |
| `Client.SuccessLabel` | client.py:72 | The label equals `"SUCCESS"` exactly for successful outcomes. |
| `Client.StatusLabelInjective` | client.py:40-45 | Equal labels mean the same outcome kind, and for HTTP errors the same status code. |
| `Client.GatherResults` | client.py:69-70 | There is one result per string sent. A success at position k carries string k and latency k. |
| `Client.GatheredSuccesses` | client.py:69-72 | The kept results are exactly the successes of the responses, in send order. For each response that is a 200 with a JSON object, the kept result holds that request's latency, its string and the `reversed_string` it returned, or `KEY_ERROR`. |
| `Client.SuccessfulRequests` | client.py:72 | The result is no longer than the input. It holds exactly the successes of the results, and only successes. |
| `Client.SuccessfulRequestsAppend` | client.py:72 | Filtering distributes over concatenation, so the successes keep their relative order. |
| `Client.SuccessfulRequestsIdempotent` | client.py:72 | Filtering the filtered list changes nothing. |
| `Client.ResponseTimesAreSuccessLatencies` | client.py:72-84 | The latencies passed to the mean are exactly the measured latencies of the requests whose response was a 200 with a JSON object, in the order the strings were sent. |
| `Client.JoinPath` | client.py:55-60 | Definition: POSIX `os.path.join` of two parts. An absolute second part replaces the first. Otherwise one `/` is inserted unless the first part is empty or already ends in one. |
| `Client.JoinPathKeepsParts` | client.py:55-60 | An absolute name is the whole path. Otherwise the path starts with the directory and ends with the name, and a directory not ending in `/` is followed by exactly one `/`. |
| `Client.OutputDir` | client.py:51-55 | Definition: `outputs` joined with the capitalised environment name. |
| `Client.FileName` | client.py:59 | Definition: `CE21B097`, the lower-cased environment name, `str(num_strings)` and `.txt`, concatenated. |
| `Client.FilePath` | client.py:60 | Definition: the output directory joined with the file name. Its layout and injectivity are stated by the lemmas below. |
| `Client.FilePathLayout` | client.py:51-60 | For an environment name without `/`, the path is `outputs/` + capitalised name + `/` + `CE21B097` + lower-cased name + `str(n)` + `.txt`. |
| `Client.FilePathCountInjective` | client.py:59 | For one environment, distinct string counts give distinct files. |
| `Client.FilePathInjective` | client.py:55-60 | Over the two accepted environments, the path determines both the environment and the count. |
| `Client.PortFor` | client.py:108 | The port is 5001 exactly for `dockerswarm`, otherwise 5002. |
| `Client.Plan` | client.py:107-124 | With a non-empty environment and a non-zero count, one experiment runs on `PortFor(env)`. Otherwise the four standard experiments run in order: `dockerswarm`, `kubernetes`, `dockerswarm`, `kubernetes`, with counts 10, 10, 10000, 10000. Every planned port equals `PortFor` of its environment. |
| `Client.PlanFilesDistinct` | client.py:119-124 | The planned experiments write pairwise different files. |
| `Client.SuccessBlocksAppend` | client.py:88-90 | The report blocks of two lists of successes are the blocks of each, concatenated in order. |
| `Client.ReportText` | client.py:72-93 | Definition: the failure text when no request succeeded, otherwise `ReportLayout` of the successes and the formatted mean of their latencies. |
| `Client.ReportLayout` | client.py:86-93 | Definition: for ten strings, the blocks of all successes followed by the average line. Otherwise only the average line. |
| `Client.ReportFailedIff` | client.py:74-81 | The report is exactly `Test failed. No successful requests.\n` iff no request succeeded. |
| `Client.ReportIgnoresMeanOnFailure` | client.py:74-84 | With no successes the mean is not used: any mean formatting gives the same file. |
| `Client.ReportTenListsSuccesses` | client.py:86-91 | In a ten-string run, the report is every success's `Original:`/`Reversed:` block in order, then the average line. |
| `ClientRun.OutputFiles.Open` | client.py:86 | Opening for writing leaves the file empty and every other file unchanged. |
| `ClientRun.OutputFiles.Write` | client.py:89 | Writing appends to the open file and changes no other file. |
| `ClientRun.WriteSuccessBlocks` | client.py:88-90 | The write loop appends exactly the blocks of all successes, in order. |
| `ClientRun.WriteReport` | client.py:86-93 | After opening, the file holds the report layout for a run with successes. |
| `ClientRun.RunExperiment` | client.py:47-93 | The experiment's file afterwards holds exactly the report for its results. No other file changes. |
| `ClientRun.AfterRunsReport` | client.py:126-127 | When the experiments' paths are distinct, each file ends up holding its own experiment's report. |
| `ClientRun.AfterRunsUntouched` | client.py:126-127 | A file that no experiment writes keeps its contents. |
| `ClientRun.RunAll` | client.py:126-127 | Running the experiments one after another leaves the files as each run in order would. |
| `ClientRun.RunMain` | client.py:107-127 | After `main`, the files are exactly those produced by running the planned experiments in order. Every planned experiment's file holds that experiment's report. Every other file keeps its contents. |

## Left out

- Network and concurrency are not modelled. This covers the aiohttp session, the POST, the 20-second timeout, `asyncio.gather` fan-out and `asyncio.run`. Each response is an input value: a received status with a body, or a transport failure. `gather` keeps task order, which is all the model uses.
- Some response bodies are declared as JSON but fail to parse, or parse to something other than an object. These raise out of `send_request` and end the run. The model's body is a JSON object or non-JSON content.
- The value of `reversed_string` is modelled as a string. Other JSON value types are not modelled.
- Clocks are not modelled: `time.monotonic`, `time.time`, the server's processing time and its `round`. Latencies are inputs.
- `statistics.mean` and the `:.4f` formatting are not modelled. Their combined effect is the opaque parameter `formatMean`.
- `random.choices` is not modelled. Its result is a parameter: one alphabet index per character.
- The `float` square root `int(n**0.5)` is not modelled. The loop uses the integer condition `i*i <= n` instead. The two are assumed to agree for the numbers the endpoint tests, all below 15000.
- Only ASCII letters change case in `lower()` and `capitalize()`. Python's Unicode case mapping is not modelled.
- `os.path.join` is modelled for two components on POSIX only.
- Several plumbing steps are not modelled: `print`, `os.makedirs` (directories are not modelled), argparse with its usage message and its rejection of other environment names, and `sys.argv`. The same holds for Flask routing, `jsonify` and `app.run`. `main` is modelled from its parsed options onward.
- The server IP and the URL are not modelled. The port only selects the server.
- `Server.ProcessRequest`: states `primes_found` as the number of primes below 15000 without evaluating that number.
