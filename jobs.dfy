/**
 * `test_datacenters`: for each datacenter, a ping job is submitted (or an
 * existing one is reused), its results are retrieved, and the tier table is
 * rebuilt from them and handed to the map renderer. The measurement service
 * is not modelled; what the run does is recorded as a trace of events, and
 * the results the service returns for a job are a parameter.
 */
module Jobs {
  import opened Wrappers
  import opened Tiers
  import opened Bucketing

  /** The options of a ping test: seconds between samples, samples, and deadline in seconds. */
  datatype PingOptions = PingOptions(interval: real, count: nat, timeout: nat)

  /** 100 pings half a second apart, with a 60 second deadline. */
  const JobOptions: PingOptions := PingOptions(0.5, 100, 60)

  const JobTests: seq<string> := ["ping"]

  /** The job a retrieval refers to: the `index`-th submission of this run, or a job id given by the caller. */
  datatype JobRef = Submitted(index: nat) | Reused(id: string)

  /** What the run does that is visible outside it. */
  datatype Event =
    | Submit(uri: string, servers: seq<string>, tests: seq<string>, options: PingOptions)
    | Retrieve(job: JobRef)
    | Report(datacenter: string, providerLabel: string, buckets: seq<seq<Entry>>)
    | Failed(job: JobRef)

  /**
   * The arguments of one `test_datacenters` call other than the datacenter
   * names. `results` stands for the measurement service: the complete
   * results it yields for a job, or None when retrieving or reading them
   * raises.
   */
  datatype Config = Config(
    uriPrefix: string,
    uriSuffix: string,
    fromLocations: seq<string>,
    hostingProvider: Option<string>,
    continents: seq<string>,
    reuseJob: Option<string>,
    results: JobRef -> Option<seq<Entry>>)

  /** The address the probes ping: prefix, datacenter name and suffix, in that order. */
  function TargetUri(prefix: string, datacenter: string, suffix: string): (uri: string)
    ensures |uri| == |prefix| + |datacenter| + |suffix|
    ensures uri[..|prefix|] == prefix
    ensures uri[|prefix|..|prefix| + |datacenter|] == datacenter
    ensures uri[|prefix| + |datacenter|..] == suffix
  {
    prefix + datacenter + suffix
  }

  /** Python's `sep.join(parts)`. */
  function Join(parts: seq<string>, sep: string): string {
    if parts == [] then ""
    else if |parts| == 1 then parts[0]
    else parts[0] + sep + Join(parts[1..], sep)
  }

  /** Joining two non-empty lists puts one separator between their joins. */
  lemma {:induction false} JoinConcat(a: seq<string>, b: seq<string>, sep: string)
    requires a != [] && b != []
    ensures Join(a + b, sep) == Join(a, sep) + sep + Join(b, sep)
  {
    assert (a + b)[0] == a[0];
    if |a| > 1 {
      assert (a + b)[1..] == a[1..] + b;
      JoinConcat(a[1..], b, sep);
    } else {
      assert (a + b)[1..] == b;
    }
  }

  /** A string argument that Python treats as true: present and not empty. */
  predicate Truthy(s: Option<string>) {
    s.Some? && s.value != ""
  }

  /**
   * The provider label as the code formats it: an absent provider is never
   * rewritten, and an f-string formats the value None as the text "None".
   */
  function LabelAsWritten(provider: Option<string>, continents: seq<string>): (text: string)
    ensures text == "None" <==> provider.None?
    ensures text == "" <==> provider == Some("")
  {
    match provider
    case None => "None"
    case Some(p) => Label(provider, continents)
  }

  /**
   * The provider label used in titles and file names: empty without a
   * provider, otherwise " at <provider>", followed by the continents in
   * parentheses when some are given.
   */
  function Label(provider: Option<string>, continents: seq<string>): (text: string)
    ensures !Truthy(provider) <==> text == ""
    ensures Truthy(provider) ==> |text| >= 4 + |provider.value| && text[..4 + |provider.value|] == " at " + provider.value
    ensures Truthy(provider) && continents != [] ==> text[|text| - 1] == ')'
    ensures Truthy(provider) && continents == [] ==> text == " at " + provider.value
    ensures Truthy(provider) && continents != [] ==> text == " at " + provider.value + " (" + Join(continents, ", ") + ")"
  {
    if Truthy(provider) then
      var head := " at " + provider.value;
      if continents == [] then head
      else
        var tail := " (" + Join(continents, ", ") + ")";
        assert (head + tail)[..|head|] == head;
        head + tail
    else ""
  }

  /**
   * The two labels differ only when the provider is absent, where the code
   * yields the text "None" instead of nothing.
   */
  lemma LabelNoneFinding(provider: Option<string>, continents: seq<string>)
    ensures provider.Some? ==> LabelAsWritten(provider, continents) == Label(provider, continents)
    ensures provider.None? ==> LabelAsWritten(provider, continents) == "None" && Label(provider, continents) == ""
  {
  }

  /** A concrete label, as built for the Linode European datacenters. */
  lemma LabelExample()
    ensures Label(Some("Linode"), ["Europe", "Asia"]) == " at Linode (Europe, Asia)"
  {
  }

  /** An existing job id is reused when one is given and is not empty. */
  predicate Reusing(cfg: Config) {
    Truthy(cfg.reuseJob)
  }

  /** The job the `k`-th datacenter's results come from. */
  function JobFor(cfg: Config, k: nat): JobRef {
    if Reusing(cfg) then Reused(cfg.reuseJob.value) else Submitted(k)
  }

  /** What retrieval and bucketing of a job's results produce for the renderer. */
  function Outcome(cfg: Config, datacenter: string, job: JobRef): Event {
    match cfg.results(job)
    case None => Failed(job)
    case Some(rs) => Report(datacenter, Label(cfg.hostingProvider, cfg.continents), Buckets(PingRanges, rs))
  }

  /** The run ends after the `k`-th datacenter: its job was reused, or it failed. */
  predicate Stops(cfg: Config, k: nat) {
    Reusing(cfg) || cfg.results(JobFor(cfg, k)).None?
  }

  /** The events for the `k`-th datacenter: the submission unless reusing, the retrieval, the outcome. */
  function Visit(cfg: Config, datacenter: string, k: nat): seq<Event> {
    var job := JobFor(cfg, k);
    (if Reusing(cfg) then [] else [Submit(TargetUri(cfg.uriPrefix, datacenter, cfg.uriSuffix), cfg.fromLocations, JobTests, JobOptions)])
    + [Retrieve(job), Outcome(cfg, datacenter, job)]
  }

  /**
   * The events of a run over `names`, the first of which is the `k`-th
   * datacenter. A reused job ends the run after the first datacenter; a
   * failed job ends it too, since nothing catches the exception.
   */
  function Run(cfg: Config, names: seq<string>, k: nat): seq<Event>
    decreases |names|
  {
    if names == [] then []
    else
      Visit(cfg, names[0], k)
      + (if Stops(cfg, k) then [] else Run(cfg, names[1..], k + 1))
  }

  /** One unfolding of Run at position `i` of the datacenter list, as the loop takes it. */
  lemma RunStep(cfg: Config, names: seq<string>, i: nat)
    requires i < |names|
    ensures Run(cfg, names[i..], i) == Visit(cfg, names[i], i)
      + (if Stops(cfg, i) then [] else Run(cfg, names[i + 1..], i + 1))
  {
    assert names[i..][1..] == names[i + 1..];
  }

  /** How the loop's running trace advances by one datacenter's events. */
  lemma RunAdvance(cfg: Config, names: seq<string>, i: nat, trace: seq<Event>, events: seq<Event>)
    requires i < |names|
    requires trace + Run(cfg, names[i..], i) == Run(cfg, names, 0)
    requires events == Visit(cfg, names[i], i)
    ensures Stops(cfg, i) ==> trace + events == Run(cfg, names, 0)
    ensures !Stops(cfg, i) ==> (trace + events) + Run(cfg, names[i + 1..], i + 1) == Run(cfg, names, 0)
  {
    RunStep(cfg, names, i);
    var rest := if Stops(cfg, i) then [] else Run(cfg, names[i + 1..], i + 1);
    assert (trace + events) + rest == trace + (events + rest);
  }

  /** The submissions numbered `k` up to `k + n` all yield complete results. */
  ghost predicate CompletesFrom(cfg: Config, k: nat, n: nat) {
    forall m :: k <= m < k + n ==> cfg.results(Submitted(m)).Some?
  }

  /**
   * Reuse path: nothing is submitted, the given job id is retrieved, and only
   * the first datacenter is processed.
   */
  lemma ReuseRun(cfg: Config, names: seq<string>)
    requires Reusing(cfg)
    ensures forall e :: e in Run(cfg, names, 0) ==> !e.Submit?
    ensures names == [] ==> Run(cfg, names, 0) == []
    ensures names != [] ==> Run(cfg, names, 0) == [Retrieve(Reused(cfg.reuseJob.value)), Outcome(cfg, names[0], Reused(cfg.reuseJob.value))]
  {
  }

  /**
   * Fresh jobs: once the first `j` datacenters completed, datacenter `j` gets
   * exactly one submission for `prefix + name + suffix`, followed by the
   * retrieval of that same submission and its outcome; when that job fails,
   * the run stops there.
   */
  lemma {:induction false} FreshRunAt(cfg: Config, names: seq<string>, k: nat, j: nat)
    requires !Reusing(cfg)
    requires j < |names|
    requires CompletesFrom(cfg, k, j)
    ensures 3 * j + 2 < |Run(cfg, names, k)|
    ensures Run(cfg, names, k)[3 * j] == Submit(TargetUri(cfg.uriPrefix, names[j], cfg.uriSuffix), cfg.fromLocations, JobTests, JobOptions)
    ensures Run(cfg, names, k)[3 * j + 1] == Retrieve(Submitted(k + j))
    ensures Run(cfg, names, k)[3 * j + 2] == Outcome(cfg, names[j], Submitted(k + j))
    ensures cfg.results(Submitted(k + j)).None? ==> |Run(cfg, names, k)| == 3 * j + 3
  {
    var visit := Visit(cfg, names[0], k);
    assert |visit| == 3;
    if j > 0 {
      assert cfg.results(Submitted(k)).Some?;
      FreshRunAt(cfg, names[1..], k + 1, j - 1);
      assert Run(cfg, names, k) == visit + Run(cfg, names[1..], k + 1);
    }
  }

  /** Fresh jobs that all complete: three events per datacenter, nothing else. */
  lemma {:induction false} FreshRunLength(cfg: Config, names: seq<string>, k: nat)
    requires !Reusing(cfg)
    requires CompletesFrom(cfg, k, |names|)
    ensures |Run(cfg, names, k)| == 3 * |names|
    decreases |names|
  {
    if names != [] {
      assert cfg.results(Submitted(k)).Some?;
      FreshRunLength(cfg, names[1..], k + 1);
    }
  }

  /** When the events end with a report, the table holds exactly the reported buckets. */
  ghost predicate ShowsLastReport(events: seq<Event>, servers: seq<seq<Entry>>) {
    events != [] && events[|events| - 1].Report? ==> servers == events[|events| - 1].buckets
  }

  lemma LastOfConcat(a: seq<Event>, b: seq<Event>)
    requires b != []
    ensures (a + b)[|a + b| - 1] == b[|b| - 1]
  {
  }

  /**
   * One pass of the datacenter loop: submit (unless reusing), retrieve, and
   * on success rebuild the table from the results and report it. `stop` says
   * whether the loop ends here: after a failure, or after the reused job.
   */
  method VisitDatacenter(table: TierTable, cfg: Config, datacenter: string, k: nat, ghost before: seq<Event>) returns (events: seq<Event>, stop: bool)
    requires table.Valid() && table.tiers == PingRanges
    modifies table
    ensures table.Valid() && table.tiers == PingRanges
    ensures events == Visit(cfg, datacenter, k)
    ensures stop == Stops(cfg, k)
    ensures ShowsLastReport(before + events, table.servers)
  {
    var job: JobRef;
    events := [];
    if !Reusing(cfg) {
      var uri := TargetUri(cfg.uriPrefix, datacenter, cfg.uriSuffix);
      events := [Submit(uri, cfg.fromLocations, JobTests, JobOptions)];
      job := Submitted(k);
    } else {
      job := Reused(cfg.reuseJob.value);
    }
    events := events + [Retrieve(job)];
    var outcome := cfg.results(job);
    if outcome.None? {
      events := events + [Failed(job)];
      stop := true;
    } else {
      table.Collect(outcome.value);
      events := events + [Report(datacenter, Label(cfg.hostingProvider, cfg.continents), table.servers)];
      stop := Reusing(cfg);
    }
    LastOfConcat(before, events);
  }

  /**
   * Runs `test_datacenters` over `names`, using `table` as the shared
   * `ping_ranges`. The events are those of Run; when the run ends with a
   * report, the table holds exactly the buckets that were reported.
   */
  method TestDatacenters(table: TierTable, cfg: Config, names: seq<string>) returns (trace: seq<Event>)
    requires table.Valid() && table.tiers == PingRanges
    modifies table
    ensures table.Valid()
    ensures trace == Run(cfg, names, 0)
    ensures ShowsLastReport(trace, table.servers)
  {
    trace := [];
    var i := 0;
    while i < |names|
      invariant 0 <= i <= |names|
      invariant table.Valid() && table.tiers == PingRanges
      invariant trace + Run(cfg, names[i..], i) == Run(cfg, names, 0)
      invariant ShowsLastReport(trace, table.servers)
    {
      var events, stop := VisitDatacenter(table, cfg, names[i], i, trace);
      RunAdvance(cfg, names, i, trace, events);
      trace := trace + events;
      if stop {
        break;
      }
      i := i + 1;
    }
  }
}
