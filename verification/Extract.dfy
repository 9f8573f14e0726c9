/** The extraction contract (internal/extract): result values and their validation. */
module Extract {
  import opened Results

  /** A Go slice, which may be nil. */
  datatype Slice<+T> = NilSlice | Slice(elems: seq<T>) {
    function Elems(): seq<T> {
      if NilSlice? then [] else elems
    }
  }

  const EVENT_TYPES := {"geopolitical", "macro", "corporate", "supply_chain", "regulation", "markets"}
  const GEO_CLUSTERS := {
    "none", "north_america", "europe", "russia_cis", "middle_east", "east_asia", "south_asia", "africa",
    "global_trade_routes", "global"
  }
  const IMPACT_DIRECTIONS := {"positive", "negative", "mixed", "neutral"}
  const TIME_HORIZONS := {"intraday", "short", "medium"}
  const CHANNELS := {
    "oil_supply_risk", "gas_supply_risk", "shipping_disruption", "risk_sentiment", "defense_spending",
    "rates_fx", "inflation", "regulation_policy", "earnings_guidance", "analyst_revision",
    "supply_chain_disruption", "demand_shift", "labor_dispute"
  }

  datatype ExtractResult = ExtractResult(
    articleId: int,
    eventType: string,
    geoCluster: string,
    countries: Slice<string>,
    companies: Slice<string>,
    sectors: Slice<string>,
    industries: Slice<string>,
    impactDirection: string,
    impactStrength: int,
    channels: Slice<string>,
    timeHorizon: string,
    confidence: real)

  /** The same result with every nil list replaced by an empty one. */
  function Normalized(r: ExtractResult): (n: ExtractResult) {
    r.(countries := Slice(r.countries.Elems()),
       companies := Slice(r.companies.Elems()),
       sectors := Slice(r.sectors.Elems()),
       industries := Slice(r.industries.Elems()),
       channels := Slice(r.channels.Elems()))
  }

  ghost predicate NoDuplicates(s: seq<string>) {
    forall i, j :: 0 <= i < j < |s| ==> s[i] != s[j]
  }

  ghost predicate ValidChannels(channels: seq<string>) {
    (forall c :: c in channels ==> c in CHANNELS) && NoDuplicates(channels)
  }

  /** What the result contract asks for. */
  ghost predicate IsValid(r: ExtractResult) {
    && r.articleId > 0
    && r.eventType in EVENT_TYPES
    && r.geoCluster in GEO_CLUSTERS
    && r.impactDirection in IMPACT_DIRECTIONS
    && 0 <= r.impactStrength <= 100
    && r.timeHorizon in TIME_HORIZONS
    && 0.0 <= r.confidence <= 1.0
    && "" !in r.countries.Elems()
    && "" !in r.companies.Elems()
    && "" !in r.sectors.Elems()
    && "" !in r.industries.Elems()
    && ValidChannels(r.channels.Elems())
  }

  method ValidateStringSlice(values: seq<string>) returns (err: Option<string>)
    ensures err == None <==> "" !in values
  {
    for i := 0 to |values|
      invariant "" !in values[..i]
    {
      if values[i] == "" {
        return Some("must not be empty");
      }
    }
    return None;
  }

  method ValidateChannels(channels: seq<string>) returns (err: Option<string>)
    ensures err == None <==> ValidChannels(channels)
  {
    var seen: set<string> := {};
    for i := 0 to |channels|
      invariant seen == set c | c in channels[..i]
      invariant ValidChannels(channels[..i])
    {
      var ch := channels[i];
      if ch == "" {
        assert forall c :: c in CHANNELS ==> |c| > 0;
        return Some("channels must not be empty");
      }
      if ch !in CHANNELS {
        return Some("channels has invalid value");
      }
      if ch in seen {
        return Some("channels contains duplicate value");
      }
      seen := seen + {ch};
    }
    assert channels[..|channels|] == channels;
    return None;
  }

  /** A result held in a variable, which validation also normalises. */
  class ResultVar {
    var value: ExtractResult

    constructor (value: ExtractResult)
      ensures this.value == value
    {
      this.value := value;
    }

    method Normalize()
      modifies this
      ensures value == Normalized(old(value))
    {
      if value.countries.NilSlice? {
        value := value.(countries := Slice([]));
      }
      if value.companies.NilSlice? {
        value := value.(companies := Slice([]));
      }
      if value.sectors.NilSlice? {
        value := value.(sectors := Slice([]));
      }
      if value.industries.NilSlice? {
        value := value.(industries := Slice([]));
      }
      if value.channels.NilSlice? {
        value := value.(channels := Slice([]));
      }
    }

    method Validate() returns (err: Option<string>)
      modifies this
      ensures value == Normalized(old(value))
      ensures err == None <==> IsValid(old(value))
      ensures err.Some? ==> err.value != ""
    {
      Normalize();
      if value.articleId <= 0 {
        return Some("article_id must be > 0");
      }
      if value.eventType !in EVENT_TYPES {
        return Some("event_type has invalid value");
      }
      if value.geoCluster !in GEO_CLUSTERS {
        return Some("geo_cluster has invalid value");
      }
      if value.impactDirection !in IMPACT_DIRECTIONS {
        return Some("impact_direction has invalid value");
      }
      if value.impactStrength < 0 || value.impactStrength > 100 {
        return Some("impact_strength must be in range 0..100");
      }
      if value.timeHorizon !in TIME_HORIZONS {
        return Some("time_horizon has invalid value");
      }
      if value.confidence < 0.0 || value.confidence > 1.0 {
        return Some("confidence must be in range 0.0..1.0");
      }
      var bad := ValidateStringSlice(value.countries.Elems());
      if bad.Some? {
        return Some("countries must not be empty");
      }
      bad := ValidateStringSlice(value.companies.Elems());
      if bad.Some? {
        return Some("companies must not be empty");
      }
      bad := ValidateStringSlice(value.sectors.Elems());
      if bad.Some? {
        return Some("sectors must not be empty");
      }
      bad := ValidateStringSlice(value.industries.Elems());
      if bad.Some? {
        return Some("industries must not be empty");
      }
      bad := ValidateChannels(value.channels.Elems());
      if bad.Some? {
        return Some("channels must be valid");
      }
      return None;
    }
  }
}
