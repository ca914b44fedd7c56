/**
 * The configuration resolver of the counterd daemon (counterd/config.go).
 *
 * Resolution is a three-step pipeline: build the compiled-in defaults, overlay the
 * user's HCL document onto them, then derive the two snapshot durations from their
 * textual forms. The HCL decoder and Go's `time.ParseDuration` are foreign code and
 * enter the model as parameters: `Decoder` and `DurationParser`.
 */
module CounterdConfig {
  import opened Wrappers

  /** Go's `time.Duration`: a signed 64-bit count of nanoseconds. */
  newtype Duration = d: int | -0x8000_0000_0000_0000 <= d < 0x8000_0000_0000_0000

  const Nanosecond: Duration := 1
  const Second: Duration := 1_000_000_000 * Nanosecond
  const Minute: Duration := 60 * Second
  const Hour: Duration := 60 * Minute

  /** The value held by a `SnapshotConfig`. */
  datatype SnapshotView = SnapshotView(
    cron: string,
    updateThresholdRaw: string,
    updateThreshold: Duration,
    deleteThresholdRaw: string,
    deleteThreshold: Duration)

  /** The value held by a `Config` together with the `SnapshotConfig` it points to. */
  datatype ConfigView = ConfigView(
    listenAddress: string,
    redisAddress: string,
    pgAddress: string,
    snapshot: SnapshotView)

  /** The two ways `ParseConfig` fails: the document does not decode, or a threshold does not parse. */
  datatype ConfigError = DecodeFailed | DurationFailed

  /**
   * What a successful `hcl.Decode` writes: one optional string per tagged key.
   * The resolved durations are tagged `hcl:"-"`, so no key reaches them.
   */
  datatype Overlay = Overlay(
    listenAddress: Option<string>,      // listen_address
    redisAddress: Option<string>,       // redis_address
    postgresqlAddress: Option<string>,  // postgresql_address
    cron: Option<string>,               // cron
    updateThreshold: Option<string>,    // update_threshold
    deleteThreshold: Option<string>)    // delete_threshold

  /** The overlay of a document that sets no key. */
  const EmptyOverlay := Overlay(None, None, None, None, None, None)

  /** `hcl.Decode` on a raw document: `None` is a decode error. */
  type Decoder = string -> Option<Overlay>

  /** `time.ParseDuration`: `None` is a parse error. */
  type DurationParser = string -> Option<Duration>

  /** The configuration `DefaultConfig` builds. */
  function DefaultView(): (c: ConfigView)
    ensures c.listenAddress == "127.0.0.1:8001"
    ensures c.redisAddress == "127.0.0.1:6379"
    ensures c.pgAddress == "postgres://postgres@localhost/postgres?sslmode=disable"
    ensures c.snapshot.cron == ""
    ensures c.snapshot.updateThresholdRaw == "" && c.snapshot.deleteThresholdRaw == ""
    ensures c.snapshot.updateThreshold as int == 10_800_000_000_000
    ensures c.snapshot.deleteThreshold as int == 7_776_000_000_000_000
  {
    ConfigView(
      "127.0.0.1:8001",
      "127.0.0.1:6379",
      "postgres://postgres@localhost/postgres?sslmode=disable",
      SnapshotView("", "", 3 * Hour, "", 3 * 30 * 24 * Hour))
  }

  /**
   * The effect of a successful decode, as this model reads `hcl.Decode`: every key present
   * replaces its field, every absent key keeps its field, and no key reaches a resolved duration.
   */
  function Overlaid(base: ConfigView, ov: Overlay): (c: ConfigView)
    ensures c.snapshot.updateThreshold == base.snapshot.updateThreshold
    ensures c.snapshot.deleteThreshold == base.snapshot.deleteThreshold
    ensures ov == EmptyOverlay ==> c == base
    ensures ov.listenAddress.Some? ==> c.listenAddress == ov.listenAddress.value
    ensures ov.listenAddress.None? ==> c.listenAddress == base.listenAddress
    ensures ov.redisAddress.Some? ==> c.redisAddress == ov.redisAddress.value
    ensures ov.redisAddress.None? ==> c.redisAddress == base.redisAddress
    ensures ov.postgresqlAddress.Some? ==> c.pgAddress == ov.postgresqlAddress.value
    ensures ov.postgresqlAddress.None? ==> c.pgAddress == base.pgAddress
    ensures ov.cron.Some? ==> c.snapshot.cron == ov.cron.value
    ensures ov.cron.None? ==> c.snapshot.cron == base.snapshot.cron
    ensures ov.updateThreshold.Some? ==> c.snapshot.updateThresholdRaw == ov.updateThreshold.value
    ensures ov.updateThreshold.None? ==> c.snapshot.updateThresholdRaw == base.snapshot.updateThresholdRaw
    ensures ov.deleteThreshold.Some? ==> c.snapshot.deleteThresholdRaw == ov.deleteThreshold.value
    ensures ov.deleteThreshold.None? ==> c.snapshot.deleteThresholdRaw == base.snapshot.deleteThresholdRaw
  {
    ConfigView(
      ov.listenAddress.GetOr(base.listenAddress),
      ov.redisAddress.GetOr(base.redisAddress),
      ov.postgresqlAddress.GetOr(base.pgAddress),
      base.snapshot.(
        cron := ov.cron.GetOr(base.snapshot.cron),
        updateThresholdRaw := ov.updateThreshold.GetOr(base.snapshot.updateThresholdRaw),
        deleteThresholdRaw := ov.deleteThreshold.GetOr(base.snapshot.deleteThresholdRaw)))
  }

  // ---------------------------------------------------------------------------
  // The derivation pass. The source repeats one block for each threshold; it is
  // written once here, for a threshold `t`, and the pass applies it in order.
  // ---------------------------------------------------------------------------

  datatype Threshold = Update | Delete

  /** The order in which `ParseConfig` derives the thresholds. */
  const DerivationOrder: seq<Threshold> := [Update, Delete]

  function Raw(s: SnapshotView, t: Threshold): string {
    match t
    case Update => s.updateThresholdRaw
    case Delete => s.deleteThresholdRaw
  }

  function Resolved(s: SnapshotView, t: Threshold): Duration {
    match t
    case Update => s.updateThreshold
    case Delete => s.deleteThreshold
  }

  function WithResolved(s: SnapshotView, t: Threshold, d: Duration): SnapshotView {
    match t
    case Update => s.(updateThreshold := d)
    case Delete => s.(deleteThreshold := d)
  }

  /** The raw text of `t` is present and `time.ParseDuration` rejects it. */
  predicate Unparsable(s: SnapshotView, t: Threshold, parse: DurationParser) {
    Raw(s, t) != "" && parse(Raw(s, t)).None?
  }

  /**
   * What the resolved duration of `t` must be after a successful derivation:
   * the parse of its raw text when that text is present, the prior value otherwise.
   */
  function Expected(s: SnapshotView, t: Threshold, parse: DurationParser): Duration {
    if Raw(s, t) != "" && parse(Raw(s, t)).Some? then parse(Raw(s, t)).value else Resolved(s, t)
  }

  /** The fields the derivation pass reads and never writes. */
  predicate SameInputs(a: SnapshotView, b: SnapshotView) {
    a.cron == b.cron && a.updateThresholdRaw == b.updateThresholdRaw && a.deleteThresholdRaw == b.deleteThresholdRaw
  }

  /** One block of the pass: derive the resolved duration of `t` from its raw text. */
  function DeriveThreshold(s: SnapshotView, t: Threshold, parse: DurationParser): (r: Option<SnapshotView>)
    ensures r.None? <==> Unparsable(s, t, parse)
    ensures r.Some? ==> SameInputs(r.value, s) && Resolved(r.value, t) == Expected(s, t, parse)
    ensures r.Some? ==> forall u :: u != t ==> Resolved(r.value, u) == Resolved(s, u)
  {
    var raw := Raw(s, t);
    if raw == "" then
      Some(s)
    else
      match parse(raw)
      case None => None
      case Some(dur) => Some(WithResolved(s, t, dur))
  }

  /** The pass: derive each threshold of `order` in turn, stopping at the first failure. */
  function DeriveAll(s: SnapshotView, order: seq<Threshold>, parse: DurationParser): (r: Option<SnapshotView>)
    ensures r.Some? ==> SameInputs(r.value, s)
    ensures r.Some? ==> forall u :: u !in order ==> Resolved(r.value, u) == Resolved(s, u)
    decreases |order|
  {
    if order == [] then
      Some(s)
    else
      match DeriveThreshold(s, order[0], parse)
      case None => None
      case Some(next) => DeriveAll(next, order[1..], parse)
  }

  /** The pass fails exactly when one of the thresholds it visits is unparsable. */
  lemma {:induction false} DeriveAllFailsIff(s: SnapshotView, order: seq<Threshold>, parse: DurationParser)
    ensures DeriveAll(s, order, parse).None? <==> exists t :: t in order && Unparsable(s, t, parse)
    decreases |order|
  {
    if order != [] {
      var step := DeriveThreshold(s, order[0], parse);
      if step.None? {
        assert order[0] in order && Unparsable(s, order[0], parse);
      } else {
        var rest := order[1..];
        DeriveAllFailsIff(step.value, rest, parse);
        forall t
          ensures Unparsable(step.value, t, parse) == Unparsable(s, t, parse)
        {
          assert Raw(step.value, t) == Raw(s, t);
        }
        assert forall t :: t in order <==> t == order[0] || t in rest;
      }
    }
  }

  /** On success, every threshold the pass visits holds its expected value. */
  lemma {:induction false} DeriveAllResolves(s: SnapshotView, order: seq<Threshold>, parse: DurationParser, t: Threshold)
    requires t in order
    ensures DeriveAll(s, order, parse).Some? ==> Resolved(DeriveAll(s, order, parse).value, t) == Expected(s, t, parse)
    decreases |order|
  {
    var step := DeriveThreshold(s, order[0], parse);
    if step.Some? {
      var next, rest := step.value, order[1..];
      assert Raw(next, t) == Raw(s, t);
      if t in rest {
        DeriveAllResolves(next, rest, parse, t);
      }
      assert Expected(next, t, parse) == Expected(s, t, parse);
    }
  }

  /** The order of the pass does not matter: any order visiting the same thresholds gives the same outcome. */
  lemma DerivationOrderIrrelevant(s: SnapshotView, order1: seq<Threshold>, order2: seq<Threshold>, parse: DurationParser)
    requires forall t :: t in order1 <==> t in order2
    ensures DeriveAll(s, order1, parse) == DeriveAll(s, order2, parse)
  {
    DeriveAllFailsIff(s, order1, parse);
    DeriveAllFailsIff(s, order2, parse);
    var r1, r2 := DeriveAll(s, order1, parse), DeriveAll(s, order2, parse);
    if r1.Some? {
      forall t
        ensures Resolved(r1.value, t) == Resolved(r2.value, t)
      {
        if t in order1 {
          DeriveAllResolves(s, order1, parse, t);
          DeriveAllResolves(s, order2, parse, t);
        }
      }
      assert Resolved(r1.value, Update) == Resolved(r2.value, Update);
      assert Resolved(r1.value, Delete) == Resolved(r2.value, Delete);
    }
  }

  /** In particular, deriving delete before update would change nothing. */
  lemma SwappedOrderSameOutcome(s: SnapshotView, parse: DurationParser)
    ensures DeriveAll(s, DerivationOrder, parse) == DeriveAll(s, [Delete, Update], parse)
  {
    DerivationOrderIrrelevant(s, DerivationOrder, [Delete, Update], parse);
  }

  /** The derivation pass of `ParseConfig` on a post-decode configuration. */
  function Derive(c: ConfigView, parse: DurationParser): (r: Result<ConfigView, ConfigError>)
    ensures r.Failure? ==> r.error == DurationFailed
    ensures r.Success? ==> r.value.listenAddress == c.listenAddress
    ensures r.Success? ==> r.value.redisAddress == c.redisAddress && r.value.pgAddress == c.pgAddress
    ensures r.Success? ==> SameInputs(r.value.snapshot, c.snapshot)
  {
    match DeriveAll(c.snapshot, DerivationOrder, parse)
    case None => Failure(DurationFailed)
    case Some(s) => Success(c.(snapshot := s))
  }

  /**
   * The derivation pass succeeds exactly when neither present raw threshold is rejected
   * by the parser, and then each resolved duration is the parse of its raw text, or its
   * post-decode value when that text is empty.
   */
  lemma DeriveSpec(c: ConfigView, parse: DurationParser)
    ensures Derive(c, parse).Success? <==>
      !Unparsable(c.snapshot, Update, parse) && !Unparsable(c.snapshot, Delete, parse)
    ensures Derive(c, parse).Success? ==>
      Derive(c, parse).value.snapshot.updateThreshold == Expected(c.snapshot, Update, parse) &&
      Derive(c, parse).value.snapshot.deleteThreshold == Expected(c.snapshot, Delete, parse)
  {
    DeriveAllFailsIff(c.snapshot, DerivationOrder, parse);
    assert forall t :: t in DerivationOrder;
    DeriveAllResolves(c.snapshot, DerivationOrder, parse, Update);
    DeriveAllResolves(c.snapshot, DerivationOrder, parse, Delete);
  }

  /** An empty raw threshold keeps its post-decode duration. */
  lemma EmptyRawKeepsThreshold(c: ConfigView, parse: DurationParser, t: Threshold)
    requires Raw(c.snapshot, t) == ""
    ensures Derive(c, parse).Success? ==> Resolved(Derive(c, parse).value.snapshot, t) == Resolved(c.snapshot, t)
  {
    DeriveSpec(c, parse);
  }

  /** A present raw threshold that parses becomes the resolved duration. */
  lemma ParsedRawSetsThreshold(c: ConfigView, parse: DurationParser, t: Threshold, d: Duration)
    requires Raw(c.snapshot, t) != "" && parse(Raw(c.snapshot, t)) == Some(d)
    ensures Derive(c, parse).Success? ==> Resolved(Derive(c, parse).value.snapshot, t) == d
  {
    DeriveSpec(c, parse);
  }

  /** A present raw threshold that does not parse fails the whole pass, whatever the other threshold holds. */
  lemma UnparsableRawFails(c: ConfigView, parse: DurationParser, t: Threshold)
    requires Unparsable(c.snapshot, t, parse)
    ensures Derive(c, parse) == Failure(DurationFailed)
  {
    DeriveSpec(c, parse);
  }

  /**
   * The thresholds are independent: two configurations whose delete inputs agree end with
   * the same delete duration, whatever their update inputs are (and likewise for update).
   */
  lemma ThresholdsIndependent(c1: ConfigView, c2: ConfigView, parse: DurationParser, t: Threshold)
    requires Raw(c1.snapshot, t) == Raw(c2.snapshot, t)
    requires Resolved(c1.snapshot, t) == Resolved(c2.snapshot, t)
    ensures Derive(c1, parse).Success? && Derive(c2, parse).Success? ==>
      Resolved(Derive(c1, parse).value.snapshot, t) == Resolved(Derive(c2, parse).value.snapshot, t)
  {
    DeriveSpec(c1, parse);
    DeriveSpec(c2, parse);
  }

  /** Running the pass again on its own result changes nothing. */
  lemma DeriveIdempotent(c: ConfigView, parse: DurationParser)
    ensures Derive(c, parse).Success? ==> Derive(Derive(c, parse).value, parse) == Derive(c, parse)
  {
    var r := Derive(c, parse);
    if r.Success? {
      DeriveSpec(c, parse);
      DeriveSpec(r.value, parse);
    }
  }

  // ---------------------------------------------------------------------------
  // The whole resolution, as a value, and the properties of particular documents.
  // ---------------------------------------------------------------------------

  /** What `ParseConfig(raw)` returns: defaults, then the decoded overlay, then the derivation pass. */
  function Resolve(raw: string, decode: Decoder, parse: DurationParser): (r: Result<ConfigView, ConfigError>)
    ensures decode(raw).None? <==> r == Failure(DecodeFailed)
    ensures r.Success? ==> r.value.snapshot.cron == decode(raw).value.cron.GetOr("")
  {
    match decode(raw)
    case None => Failure(DecodeFailed)
    case Some(ov) => Derive(Overlaid(DefaultView(), ov), parse)
  }

  /** A document that sets no key resolves to exactly the defaults. */
  lemma ResolveEmptyDocument(raw: string, decode: Decoder, parse: DurationParser)
    requires decode(raw) == Some(EmptyOverlay)
    ensures Resolve(raw, decode, parse) == Success(DefaultView())
  {
    DeriveSpec(DefaultView(), parse);
  }

  /** A document that sets only `listen_address` changes only the listen address. */
  lemma ResolveListenAddressOnly(raw: string, decode: Decoder, parse: DurationParser, address: string)
    requires decode(raw) == Some(EmptyOverlay.(listenAddress := Some(address)))
    ensures Resolve(raw, decode, parse) == Success(DefaultView().(listenAddress := address))
  {
    DeriveSpec(DefaultView().(listenAddress := address), parse);
  }

  /**
   * A document that sets only `update_threshold` to a text the parser accepts resolves
   * the update threshold to the parsed value and keeps the default delete threshold.
   */
  lemma ResolveUpdateThresholdOnly(raw: string, decode: Decoder, parse: DurationParser, text: string, d: Duration)
    requires text != "" && parse(text) == Some(d)
    requires decode(raw) == Some(EmptyOverlay.(updateThreshold := Some(text)))
    ensures Resolve(raw, decode, parse).Success?
    ensures Resolve(raw, decode, parse).value.snapshot.updateThreshold == d
    ensures Resolve(raw, decode, parse).value.snapshot.deleteThreshold as int == 7_776_000_000_000_000
  {
    var decoded := Overlaid(DefaultView(), decode(raw).value);
    DeriveSpec(decoded, parse);
  }

  /** A decoded document whose present threshold text the parser rejects yields no configuration. */
  lemma ResolveRejectsBadThreshold(raw: string, decode: Decoder, parse: DurationParser, text: string)
    requires text != "" && parse(text).None?
    requires decode(raw).Some?
    requires decode(raw).value.updateThreshold == Some(text) || decode(raw).value.deleteThreshold == Some(text)
    ensures Resolve(raw, decode, parse) == Failure(DurationFailed)
  {
    var decoded := Overlaid(DefaultView(), decode(raw).value);
    if decode(raw).value.updateThreshold == Some(text) {
      UnparsableRawFails(decoded, parse, Update);
    } else {
      UnparsableRawFails(decoded, parse, Delete);
    }
  }

  // ---------------------------------------------------------------------------
  // The heap objects of the source and the imperative `ParseConfig`.
  // ---------------------------------------------------------------------------

  /** `SnapshotConfig`: the snapshot settings, reached through `Config.snapshot`. */
  class SnapshotConfig {
    var cron: string
    var updateThresholdRaw: string
    var updateThreshold: Duration
    var deleteThresholdRaw: string
    var deleteThreshold: Duration

    function View(): SnapshotView
      reads this
    {
      SnapshotView(cron, updateThresholdRaw, updateThreshold, deleteThresholdRaw, deleteThreshold)
    }

    constructor (v: SnapshotView)
      ensures View() == v
    {
      cron := v.cron;
      updateThresholdRaw := v.updateThresholdRaw;
      updateThreshold := v.updateThreshold;
      deleteThresholdRaw := v.deleteThresholdRaw;
      deleteThreshold := v.deleteThreshold;
    }
  }

  /** `Config`: the server settings and a pointer to the snapshot settings. */
  class Config {
    var listenAddress: string
    var redisAddress: string
    var pgAddress: string
    var snapshot: SnapshotConfig

    function View(): ConfigView
      reads this, snapshot
    {
      ConfigView(listenAddress, redisAddress, pgAddress, snapshot.View())
    }

    /** `DefaultConfig`: a fresh configuration, with a fresh snapshot object, holding the defaults. */
    constructor Default()
      ensures View() == DefaultView()
      ensures fresh(snapshot)
    {
      var d := DefaultView();
      listenAddress := d.listenAddress;
      redisAddress := d.redisAddress;
      pgAddress := d.pgAddress;
      snapshot := new SnapshotConfig(d.snapshot);
    }
  }

  /**
   * `hcl.Decode(config, raw)`: on success the document's keys are written into `config`
   * and into the snapshot object it already points to. After a failure the caller
   * discards `config`, so nothing is promised about it.
   */
  method HclDecode(config: Config, raw: string, decode: Decoder) returns (ok: bool)
    modifies config, config.snapshot
    ensures config.snapshot == old(config.snapshot)
    ensures ok <==> decode(raw).Some?
    ensures ok ==> config.View() == Overlaid(old(config.View()), decode(raw).value)
  {
    match decode(raw)
    case None =>
      ok := false;
    case Some(ov) =>
      var s := config.snapshot;
      config.listenAddress := ov.listenAddress.GetOr(config.listenAddress);
      config.redisAddress := ov.redisAddress.GetOr(config.redisAddress);
      config.pgAddress := ov.postgresqlAddress.GetOr(config.pgAddress);
      s.cron := ov.cron.GetOr(s.cron);
      s.updateThresholdRaw := ov.updateThreshold.GetOr(s.updateThresholdRaw);
      s.deleteThresholdRaw := ov.deleteThreshold.GetOr(s.deleteThresholdRaw);
      ok := true;
  }

  /**
   * `ParseConfig(raw)`: a fresh configuration holding `Resolve(raw)` on success; on any
   * failure no configuration at all (`null`) and the error, even when the update
   * threshold was already written into the discarded object.
   */
  method ParseConfig(raw: string, decode: Decoder, parseDuration: DurationParser)
    returns (config: Config?, err: Option<ConfigError>)
    ensures config == null <==> err.Some?
    ensures Resolve(raw, decode, parseDuration).Failure? ==>
      err == Some(Resolve(raw, decode, parseDuration).error)
    ensures Resolve(raw, decode, parseDuration).Success? ==>
      config != null && fresh(config) && fresh(config.snapshot) &&
      config.View() == Resolve(raw, decode, parseDuration).value
  {
    config := new Config.Default();
    var decoded := HclDecode(config, raw, decode);
    if !decoded {
      return null, Some(DecodeFailed);
    }
    ghost var postDecode := config.View();
    DeriveSpec(postDecode, parseDuration);

    var updateRaw := config.snapshot.updateThresholdRaw;
    if updateRaw != "" {
      var dur := parseDuration(updateRaw);
      if dur.None? {
        return null, Some(DurationFailed);
      }
      config.snapshot.updateThreshold := dur.value;
    }
    var deleteRaw := config.snapshot.deleteThresholdRaw;
    if deleteRaw != "" {
      var dur := parseDuration(deleteRaw);
      if dur.None? {
        return null, Some(DurationFailed);
      }
      config.snapshot.deleteThreshold := dur.value;
    }
    return config, None;
  }
}
