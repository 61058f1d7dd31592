/**
 * The "image-location" caption: where a photo was taken, from its EXIF city,
 * state and country. Foreign places read "city, country"; places in the
 * United States read "city, state" and never name the country.
 */
module ImageLocation {
  import opened Immich

  const Name := "image-location"

  const Usa := "United States of America"

  /** The non-empty parts, separated by ", ". */
  function JoinNonEmpty(parts: seq<string>): (s: string)
    ensures s == "" <==> forall i :: 0 <= i < |parts| ==> parts[i] == ""
    decreases |parts|
  {
    if |parts| == 0 then ""
    else
      var rest := JoinNonEmpty(parts[1..]);
      if parts[0] == "" then rest
      else if rest == "" then parts[0]
      else parts[0] + ", " + rest
  }

  /** The caption for an asset, following the source's decision table case by case. */
  function Format(meta: AssetMetadata): (s: string)
    ensures meta.exif.country == "" ==> s == ""
    ensures meta.exif.country != "" && meta.exif.country != Usa ==>
              s == meta.exif.country || s == meta.exif.city + ", " + meta.exif.country
    ensures meta.exif.country == Usa ==>
              s in {"", meta.exif.city, meta.exif.state, meta.exif.city + ", " + meta.exif.state}
  {
    var city, state, country := meta.exif.city, meta.exif.state, meta.exif.country;
    if country != Usa && country != "" && city != "" then city + ", " + country
    else if country != Usa && country != "" then country
    else if country == Usa && city != "" && state != "" then city + ", " + state
    else if country == Usa && city != "" then city
    else if country == Usa && state != "" then state
    else ""
  }

  /**
   * The caption described by what it shows rather than by the table: nothing
   * without a country; abroad, the city (if known) and the country; at home,
   * whichever of city and state are known.
   */
  function Shown(exif: ExifInfo): seq<string> {
    if exif.country == "" then []
    else if exif.country == Usa then [exif.city, exif.state]
    else [exif.city, exif.country]
  }

  /** The decision table agrees with the description. */
  lemma FormatShowsKnownParts(meta: AssetMetadata)
    ensures Format(meta) == JoinNonEmpty(Shown(meta.exif))
  {
    var e := meta.exif;
    var p := Shown(e);
    if e.country != "" {
      assert p[1..][1..] == [];
      assert p[1..][0] == p[1];
    }
  }

  /** A caption is empty exactly when no country is known, or the place is in the United States and neither city nor state is. */
  lemma EmptyExactly(meta: AssetMetadata)
    ensures Format(meta) == "" <==>
      meta.exif.country == "" || (meta.exif.country == Usa && meta.exif.city == "" && meta.exif.state == "")
  {
    FormatShowsKnownParts(meta);
    var p := Shown(meta.exif);
    if meta.exif.country != "" && Format(meta) == "" {
      assert p[0] == "" && p[1] == "";
    }
  }

  /** Inside the United States the caption depends on the city and the state only. */
  lemma UsaCaptionIgnoresCountry(m1: AssetMetadata, m2: AssetMetadata)
    requires m1.exif.country == Usa && m2.exif.country == Usa
    requires m1.exif.city == m2.exif.city && m1.exif.state == m2.exif.state
    ensures Format(m1) == Format(m2)
  {
  }

  /** Abroad the state is never shown, and a known country always ends the caption. */
  lemma ForeignCaptionEndsWithCountry(meta: AssetMetadata)
    requires meta.exif.country != Usa && meta.exif.country != ""
    ensures |Format(meta)| >= |meta.exif.country|
    ensures Format(meta)[|Format(meta)| - |meta.exif.country|..] == meta.exif.country
  {
  }

  /** The example captions: a foreign city, a country alone, and the three United States cases. */
  lemma Examples()
    ensures Format(AssetMetadata("a", "", "", "", ExifInfo("Paris", "Ile-de-France", "France", "", ""))) == "Paris, France"
    ensures Format(AssetMetadata("a", "", "", "", ExifInfo("", "Ile-de-France", "France", "", ""))) == "France"
    ensures Format(AssetMetadata("a", "", "", "", ExifInfo("Austin", "Texas", Usa, "", ""))) == "Austin, Texas"
    ensures Format(AssetMetadata("a", "", "", "", ExifInfo("Austin", "", Usa, "", ""))) == "Austin"
    ensures Format(AssetMetadata("a", "", "", "", ExifInfo("", "Texas", Usa, "", ""))) == "Texas"
    ensures Format(AssetMetadata("a", "", "", "", ExifInfo("Austin", "Texas", "", "", ""))) == ""
  {
  }
}
