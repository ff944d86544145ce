# vps-ping-analysis: latency classification and bucketing, in Dafny

`main.py` measures ping latency to a list of datacenters from probe servers of a
remote testing service ("where it's up", WIU). It files each probe's average
round-trip time under one of four quality tiers and draws the results on a map.
This project models the part of that script with real logic:

- **Directory pass** (`directory.dfy`, module `Directory`). One loop over the
  service's probe directory collects the continent and country names. It also
  builds the North American list (the country is "United States" or "Canada")
  and the Eurasian list (the continent is "Eurasia"). The two tests are
  independent, and both lists keep directory order.
- **Tier table** (`tiers.dfy`, module `Tiers`). `ping_ranges` is the ordered
  table `perfect [0,30)`, `satisfactory [30,60)`, `uncomfortable [60,90)` and
  `unplayable [90, sys.maxsize)`, with `sys.maxsize = 2^63 - 1`. `int(float(avg))`
  is truncation toward zero. The lookup is a scan that stops at the first tier
  whose `range` holds the truncated value. The module proves that any table of
  contiguous ranges gives that value one tier at most, and exactly one inside
  its bounds. The bands are then stated for the concrete table, both on the
  truncated integer and on the raw average.
- **Bucketing** (`bucketing.dfy`, module `Bucketing`). The class `TierTable`
  holds the tier table and each tier's `servers` list. `Reset` empties every
  list. `Classify` appends `(server, avg)` to the first matching tier and drops
  a result that no tier holds. `Collect` does one datacenter: it resets, then
  classifies every complete result in iteration order. Its result is the
  function `Buckets`, which depends only on that datacenter's results. Lemmas
  give where each result goes, how often, and in what order.
- **Per-datacenter control flow** (`jobs.dfy`, module `Jobs`). `test_datacenters`
  is modelled as a loop that records a trace of events: `Submit` (target URI,
  probes, test kind, options), `Retrieve`, `Report` (the buckets handed to the
  renderer) and `Failed`. The measurement service is a parameter, `results`.
  It returns a job's complete results, or None when retrieving or reading them
  raises. Lemmas state the order of these events on a fresh run and on the
  reuse path.

`wrappers.dfy` holds the `Option` type. `filtering.dfy` holds a generic
order-preserving filter with its multiset and subsequence lemmas, which the
directory and the buckets both use.

## Model

| member | source | states |
|---|---|---|
| `Tiers.Trunc` | main.py:88 | `int()` of a float truncates toward zero: the result is on zero's side of the input and less than 1 away from it |
| `Tiers.FirstMatchFrom` | main.py:87-90 | the scan returns the first tier from the start index whose range holds the value; every tier skipped before it does not hold the value; None means no tier from there on holds it |
| `Tiers.BoundsOrdered` | main.py:42-47 | in a contiguous table, an earlier tier's upper bound is at most a later tier's lower bound |
| `Tiers.Disjoint` | main.py:42-47 | in a contiguous table, no value lies in two different tiers |
| `Tiers.Covers` | main.py:42-47 | in a contiguous table, every value between the first lower bound and the last upper bound lies in some tier |
| `Tiers.FirstMatchExact` | main.py:87-90 | in a contiguous table, the scan finds tier i exactly when the value lies in tier i's range, and finds nothing exactly when the value is outside the table's overall bounds |
| `Tiers.PingRangesContiguous` | main.py:42-47 | `ping_ranges` is contiguous, starts at 0 and ends at sys.maxsize |
| `Tiers.PingTierOfInteger` | main.py:42-47 | a truncated value t goes to perfect iff 0 <= t < 30, satisfactory iff 30 <= t < 60, uncomfortable iff 60 <= t < 90, unplayable iff 90 <= t < sys.maxsize, and to no tier iff t < 0 or t >= sys.maxsize |
| `Tiers.PingTierOfAverage` | main.py:88 | the same bands on the raw average: perfect iff -1 < avg < 30 (truncation maps (-1, 0) to 0), and no tier iff avg <= -1 or avg >= sys.maxsize |
| `Tiers.TierName` | main.py:42-47 | an average has a tier name iff -1 < avg < sys.maxsize; the name is "perfect" iff -1 < avg < 30, "satisfactory" iff 30 <= avg < 60, "uncomfortable" iff 60 <= avg < 90, "unplayable" iff 90 <= avg < sys.maxsize |
| `Tiers.BoundaryExamples` | main.py:42-47 | 29.999 is perfect, 30.0 satisfactory, 90.0 unplayable, -0.5 perfect, and -1.0 has no tier |
| `Directory.Names` | main.py:32 | the name list has one name per record, in record order |
| `Directory.LoadDirectory` | main.py:28-34 | the pass returns exactly the set of continent names, the set of country names, the names of the North American records and the names of the Eurasian records, each list in directory order |
| `Directory.SelectionSnoc` | main.py:31-34 | appending a record to the directory appends its name to a selection exactly when the record passes that selection's test |
| `Directory.SelectionMembers` | main.py:31-34 | a name is in a selection iff some record with that name passes the selection's test |
| `Directory.SelectionInDirectoryOrder` | main.py:28-34 | each selection is a subsequence of the directory's names: directory order is kept |
| `Bucketing.TierOf` | main.py:87-88 | the tier a result is filed under holds its truncated average; None means no tier holds it |
| `Bucketing.Buckets` | main.py:76-90 | there is one bucket per tier |
| `Bucketing.Place` | main.py:87-90 | filing one result appends it to its own tier's bucket and leaves every other bucket unchanged; a result without a tier changes nothing |
| `Bucketing.BucketsSnoc` | main.py:81-90 | filing the results one at a time with Place builds exactly Buckets of the whole result list |
| `Bucketing.BucketContents` | main.py:76-90 | a result occurs in bucket i as often as among the results if i is its tier, and not at all otherwise; so buckets hold only this datacenter's results, each at most once per occurrence |
| `Bucketing.BucketOrder` | main.py:81-89 | each bucket is a subsequence of the results: iteration order is kept |
| `Bucketing.PingBucketOf` | main.py:87-90 | with `ping_ranges`, a result is in some bucket iff -1 < avg < sys.maxsize, and never in two buckets |
| `Bucketing.SameTierKeepsAll` | main.py:81-90 | results that all fall in one tier appear in that tier's bucket in the order [A, B, C] they came in |
| `Bucketing.SingleResultExample` | main.py:81-90 | a single result of 25.0 ms from "tokyo" yields buckets perfect = [("tokyo", 25.0)] and the other three empty |
| `Bucketing.TierTable.constructor` | main.py:42-47 | the table is `ping_ranges` with every list empty |
| `Bucketing.TierTable.Reset` | main.py:76-77 | every tier's list is emptied; the tier table is unchanged |
| `Bucketing.TierTable.Classify` | main.py:87-90 | the new lists are the old lists with `(server, avg)` filed by Place: appended to the first matching tier only, with the raw average |
| `Bucketing.TierTable.Collect` | main.py:76-90 | after one datacenter, the lists equal Buckets of that datacenter's results, whatever they held before |
| `Jobs.TargetUri` | main.py:58 | the URI splits back into the prefix, the datacenter name and the suffix, in that order |
| `Jobs.LabelAsWritten` | main.py:51-54 | the label as the code formats it is the text "None" exactly when no provider is passed, and empty exactly when the provider is the empty string |
| `Jobs.Label` | main.py:51-54 | the label is empty iff no provider is given; otherwise it is " at <provider>", followed by " (c1, c2, ...)" (the continents joined by ", ") when continents are given |
| `Jobs.JoinConcat` | main.py:54 | `", ".join` of two non-empty lists placed end to end is the join of the first, one separator, and the join of the second |
| `Jobs.LabelNoneFinding` | main.py:51-54 | the code's label and the corrected label agree whenever a provider value is passed; with the default None the code yields "None" and the corrected label "" |
| `Jobs.LabelExample` | main.py:54 | provider "Linode" with continents Europe and Asia gives " at Linode (Europe, Asia)" |
| `Jobs.RunStep` | main.py:55-147 | one unfolding of the run: the datacenter's own events, then the rest of the run unless the run stops there |
| `Jobs.RunAdvance` | main.py:55-147 | after a datacenter's events, the trace so far is the whole run if the run stops, and otherwise a prefix followed by the run over the remaining datacenters |
| `Jobs.ReuseRun` | main.py:69-73 | with a reused job id nothing is submitted; the run retrieves that id once, for the first datacenter only (the `break` at lines 146-147) |
| `Jobs.FreshRunAt` | main.py:57-73 | without reuse, once datacenters 0..j-1 have completed, datacenter j has exactly one Submit of prefix + name + suffix, with the probe list, "ping" and the 0.5 s / 100 / 60 s options; the Retrieve of that same submission comes right after it, then its outcome; a failure ends the run there |
| `Jobs.FreshRunLength` | main.py:55-73 | without reuse, and when every job completes, the run has three events per datacenter and nothing else |
| `Jobs.VisitDatacenter` | main.py:56-90 | one loop pass produces the datacenter's events and says whether the loop stops; after a report, the table holds the reported buckets |
| `Jobs.TestDatacenters` | main.py:50-147 | the loop's trace is Run; when the run ends with a report, the shared table holds exactly the buckets reported last |

## Left out

- Credential loading from `~/.wiuppy` and the construction of the API client: file I/O.
- The WIU client calls `api.servers()`, `job.submit()` and `job.retrieve(poll=True)`: network calls inside a library that is not part of this model. The directory is an input of `LoadDirectory`. A submission is the `Submit` event. Results come from the `results` parameter. Job ids issued by the service are not modelled: a fresh job is named by its position in the run.
- The blocking poll loop inside `job.retrieve`: it belongs to the WIU library. Its terminal failure states, and an exception while reading a result summary, are folded into `results` returning None. The run then stops, because `test_datacenters` catches no exception.
- Jobs.TestDatacenters: the `Report` events carry the corrected label `Label`, not the code's `LabelAsWritten`. With `hosting_provider` left at None, the code's title and image file name contain "None" where the model's report holds "" (see Findings).
- Jobs.VisitDatacenter: its `Report` carries the corrected label `Label` too, and it assumes the submission succeeds, for the reasons given for `Jobs.TestDatacenters`.
- Jobs.TestDatacenters: a failed `job.submit()` is not modelled. In the code it raises and ends the run before any retrieval; in the model every `Submit` is followed by its `Retrieve`.
- Jobs.TestDatacenters: says nothing about the tier lists after a failed job. In the code, a malformed summary raises after some results are already filed, and the process then ends.
- All map work: shapefile loading, reprojection, plotting, `tissot` circles, `savefig` and `show`, `importlib.reload`. The `Report` event stands for the hand-off of the buckets to the renderer.
- The circle radius `(-200/90)*avg + 200` and the latitude/longitude lookup: floating-point arithmetic that only feeds the renderer. The formula goes negative above 90 ms and is not clamped.
- All `print` output.
- The driver calls at the end of the script and the lists of Linode and Hetzner subdomains: static data.
- Tiers.Trunc: the average is an exact `real`. The rounding of `float()` to binary64 is not modelled: a text such as "29.99999999999999999" becomes 30.0 there and is filed as satisfactory. NaN and infinities, where `int()` raises, are not modelled either.
- The stored average is the summary's raw value. The model keeps it as the same real number that is classified, not as the text the service sends.
- `continents` is a sequence. `None` and an empty list behave alike in the code (`if continents:`), so both are the empty sequence.
- Before the first reset the code's tier dictionaries have no `servers` key. The model starts with empty lists, which nothing reads before `Reset`.

Three behaviours of the code that a reader might not expect, which the model keeps:
- A failed or malformed job is not caught per datacenter: it ends the whole run.
- A negative average is not rejected: it is truncated toward zero, so values in (-1, 0) count as perfect.
- The tier table is not validated when it is built. Its contiguity is a lemma about the constant table instead.

## Findings

| source | as written | input that shows it | evidently intended | confidence | as-written member | corrected member |
|---|---|---|---|---|---|---|
| main.py:51-54 | when `hosting_provider` is left at its default `None`, it is never rewritten, and the f-strings of the title, the progress line and the image file name format it as the text "None" | `test_datacenters(["fremont"], "http://speedtest.", ".linode.com", servers)` names its image `fremontNone.png` | no provider suffix at all (`fremont.png`) | medium, not executed | `Jobs.LabelAsWritten`, exhibited by `Jobs.LabelNoneFinding` | `Jobs.Label` |
