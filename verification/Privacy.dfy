/**
 * The privacy boundary: what of a node may be staged, and how places are coarsened
 * (server/gridwitness_server/privacy.py).
 */
module Privacy {
  import opened Basics
  import opened Registry
  import S = Staging

  const ELECTRICAL_CHANNELS: set<Channel> :=
    {"frequency_hz", "voltage_v", "current_a", "power_w", "power_factor", "phase_angle_deg"}
  const WEATHER_CHANNELS: set<Channel> :=
    {"temp", "rhum", "wspd", "wdir", "pres", "prcp", "solar_radiation_w_m2", "uv"}

  /** One row of a request body. `values` holds the channels that are not null; weather samples have no phase. */
  datatype Sample = Sample(stamp: S.Stamp, source: string, phase: string, values: map<Channel, real>)

  function TierName(t: Tier): string {
    match t
    case Anon => "anon"
    case Region => "region"
    case DataShare => "data_share"
  }

  function Allowed(values: map<Channel, real>, channels: set<Channel>): map<Channel, real> {
    map c | c in values && c in channels :: values[c]
  }

  /** Field by field, from the sample and from an explicit list of node fields; nothing else of the node. */
  function Project(kind: S.Kind, s: Sample, id: NodeId, node: Node): S.Row {
    match kind
    case Electrical =>
      S.Row(kind, id, s.stamp, s.source, s.phase, Allowed(s.values, ELECTRICAL_CHANNELS),
            S.Tags(node.deviceType, node.firmware, node.cadenceMs, TierName(node.locTier), node.locRef, None))
    case Weather =>
      S.Row(kind, id, s.stamp, s.source, "", Allowed(s.values, WEATHER_CHANNELS),
            S.Tags(node.deviceType, None, None, TierName(node.locTier), node.locRef, node.cellId))
  }

  /** What a staged row says of a sample: time, source, phase, and the values of the channels of its kind. */
  ghost predicate Says(r: S.Row, kind: S.Kind, s: Sample, id: NodeId) {
    && r.kind == kind && r.node == id && r.stamp == s.stamp && r.source == s.source
    && r.phase == (if kind.Electrical? then s.phase else "")
    && r.values.Keys
       == s.values.Keys
          * (if kind.Electrical?
             then {"frequency_hz", "voltage_v", "current_a", "power_w", "power_factor", "phase_angle_deg"}
             else {"temp", "rhum", "wspd", "wdir", "pres", "prcp", "solar_radiation_w_m2", "uv"})
    && forall c :: c in r.values ==> r.values[c] == s.values[c]
  }

  /** And of its node: the device, how far its place may be known, and that place; not account, token or postcode. */
  ghost predicate TaggedAs(r: S.Row, node: Node) {
    && r.tags.deviceType == node.deviceType && r.tags.locRef == node.locRef
    && (r.tags.locTier == "anon" <==> node.locTier.Anon?) && (r.tags.locTier == "region" <==> node.locTier.Region?)
    && (r.tags.locTier == "data_share" <==> node.locTier.DataShare?)
    && match r.kind
       case Electrical =>
         r.tags.firmware == node.firmware && r.tags.cadenceMs == node.cadenceMs && r.tags.cellId == None
       case Weather => r.tags.firmware == None && r.tags.cadenceMs == None && r.tags.cellId == node.cellId
  }

  lemma ProjectSays(kind: S.Kind, s: Sample, id: NodeId, node: Node)
    ensures Says(Project(kind, s, id, node), kind, s, id) && TaggedAs(Project(kind, s, id, node), node)
  {
  }

  // --- Places -------------------------------------------------------------------------------------

  /** Postcode areas to regions, a table of the server; and the string methods the lookup relies on. */
  datatype Atlas = Atlas(regions: map<string, string>, strip: string -> string, upper: string -> string,
                         alpha: char -> bool)

  /** The leading letters of the stripped postcode, in capitals: "bs1 5AH" gives "BS". */
  function PostcodeArea(atlas: Atlas, postcode: string): string {
    Leading(atlas, atlas.upper(atlas.strip(postcode)))
  }

  function Leading(atlas: Atlas, s: string): string {
    if s == [] || !atlas.alpha(s[0]) then [] else [s[0]] + Leading(atlas, s[1..])
  }

  datatype Resolved = Resolved(locRef: Option<string>, cellId: Option<string>, storedPostcode: Option<string>,
                               rawRegion: Option<string>)

  predicate Given(s: Option<string>) {
    s.Some? && s.value != ""
  }

  /** No geo-IP database is wired, so an anonymous node has no region. */
  function Resolve(atlas: Atlas, tier: Tier, postcode: Option<string>, region: Option<string>): Resolved {
    match tier
    case Region => Resolved(if Given(region) then Some("DNO_" + region.value) else None, None, None, None)
    case DataShare =>
      var ref :=
        if !Given(postcode) then None
        else
          var area := PostcodeArea(atlas, postcode.value);
          Some(if area in atlas.regions then atlas.regions[area] else "GSP_UNKNOWN");
      Resolved(ref, None, postcode, None)
    case Anon => Resolved(None, None, None, None)
  }

  /** The two 400 answers: a region or postcode missing where the tier needs one. */
  predicate PlaceMissing(tier: Tier, postcode: Option<string>, region: Option<string>) {
    (tier.Region? && !Given(region)) || (tier.DataShare? && !Given(postcode))
  }

  /** The first `n` characters of a text are letters, and no more of them. */
  predicate LeadingLetters(atlas: Atlas, s: string, n: nat) {
    n <= |s| && (forall i :: 0 <= i < n ==> atlas.alpha(s[i])) && (n < |s| ==> !atlas.alpha(s[n]))
  }

  /** What may be known of a place: nothing, the region the user picked, or the region of the postcode's area. */
  ghost predicate IsPublished(atlas: Atlas, tier: Tier, postcode: Option<string>, region: Option<string>,
                              ref: Option<string>)
  {
    match tier
    case Anon => ref == None
    case Region => region.Some? && ref == Some("DNO_" + region.value)
    case DataShare =>
      postcode.Some? &&
      var text := atlas.upper(atlas.strip(postcode.value));
      exists n: nat :: LeadingLetters(atlas, text, n)
        && ref == Some(if text[..n] in atlas.regions then atlas.regions[text[..n]] else "GSP_UNKNOWN")
  }

  lemma {:induction false} LeadingIsLetters(atlas: Atlas, s: string) returns (n: nat)
    ensures LeadingLetters(atlas, s, n) && Leading(atlas, s) == s[..n]
  {
    n := 0;
    if s != [] && atlas.alpha(s[0]) {
      var m := LeadingIsLetters(atlas, s[1..]);
      n := m + 1;
      assert s[..n] == [s[0]] + s[1..][..m];
      assert n < |s| ==> s[n] == s[1..][m];
    }
  }

  /** Where a place is given as its tier asks, this and no more of it is published, and only a postcode is stored. */
  lemma PlacesAreCoarse(atlas: Atlas, tier: Tier, postcode: Option<string>, region: Option<string>)
    requires tier.Region? ==> region.Some? && region.value != ""
    requires tier.DataShare? ==> postcode.Some? && postcode.value != ""
    ensures !PlaceMissing(tier, postcode, region)
    ensures var r := Resolve(atlas, tier, postcode, region);
            && IsPublished(atlas, tier, postcode, region, r.locRef) && r.cellId == None && r.rawRegion == None
            && r.storedPostcode == if tier.DataShare? then postcode else None
  {
    if tier.DataShare? {
      var n := LeadingIsLetters(atlas, atlas.upper(atlas.strip(postcode.value)));
    }
  }

  /** Postcodes with the same leading letters resolve to the same published place. */
  lemma OnlyTheAreaShows(atlas: Atlas, tier: Tier, one: Option<string>, other: Option<string>, region: Option<string>)
    requires Given(one) <==> Given(other)
    requires Given(one) ==> PostcodeArea(atlas, one.value) == PostcodeArea(atlas, other.value)
    ensures var a, b := Resolve(atlas, tier, one, region), Resolve(atlas, tier, other, region);
            a.locRef == b.locRef && a.cellId == b.cellId && a.rawRegion == b.rawRegion
  {
  }
}
