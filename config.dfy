/**
 * User settings of the desktop front end: artwork thumbnail quality,
 * playback volume and colour theme, and how the values read from the
 * settings dialog are normalised before they are stored.
 */
module Config {
  import opened Wrappers
  import opened Text

  /**
   * Artwork quality. Bandcamp serves artworks in several resolutions,
   * selected by a number in the image URL; that number is the discriminant.
   */
  datatype ArtworkThumbnailQuality = High | Medium | Low | VeryLow

  /** `quality as i32`: the enum discriminant. */
  function Discriminant(q: ArtworkThumbnailQuality): (d: int)
    ensures d in {7, 6, 42, 22}
    ensures d == 7 <==> q == High
  {
    match q
    case High => 7
    case Medium => 6
    case Low => 42
    case VeryLow => 22
  }

  /** Different qualities ask the image server for different resolutions. */
  lemma DiscriminantInjective(p: ArtworkThumbnailQuality, q: ArtworkThumbnailQuality)
    ensures Discriminant(p) == Discriminant(q) <==> p == q
  {
  }

  /** The order of the qualities in the settings dropdown. */
  const LoadArtworks: seq<ArtworkThumbnailQuality> := [High, Medium, Low, VeryLow]

  const DefaultTheme: string := "hope_diamond"
  const DefaultVolume: int := 100

  /** `u16`. */
  type U16 = x: int | 0 <= x < 0x1_0000

  /** `v as usize` for an `i32` on a 64-bit target: a negative value wraps around. */
  function AsUsize(v: int): (u: nat)
    requires I32Min <= v <= I32Max
    ensures 0 <= v ==> u == v
    ensures v < 0 ==> u > I32Max
  {
    if v >= 0 then v else v + 0x1_0000_0000_0000_0000
  }

  /** `v as u16`: the low sixteen bits of the two's-complement value. */
  function AsU16(v: int): (u: U16)
    ensures (u - v) % 0x1_0000 == 0
    ensures 0 <= v < 0x1_0000 ==> u == v
  {
    v % 0x1_0000
  }

  /**
   * `set_settings`' choice of quality for dropdown index `v`: the entry of
   * `LoadArtworks` when `v as usize` is a valid index, `High` otherwise.
   */
  function QualityOfIndex(v: int): (q: ArtworkThumbnailQuality)
    requires I32Min <= v <= I32Max
    ensures 0 <= v < |LoadArtworks| ==> q == LoadArtworks[v]
    ensures (v < 0 || v >= |LoadArtworks|) ==> q == High
  {
    if |LoadArtworks| - 1 < AsUsize(v) then High else LoadArtworks[AsUsize(v)]
  }

  /** `iter().position(|&v| v == q)`: the first index holding `q`, if any. */
  function Position(s: seq<ArtworkThumbnailQuality>, q: ArtworkThumbnailQuality): (r: Option<nat>)
    ensures r.Some? ==> r.value < |s| && s[r.value] == q && forall j :: 0 <= j < r.value ==> s[j] != q
    ensures r.None? <==> q !in s
  {
    if |s| == 0 then None
    else if s[0] == q then Some(0)
    else match Position(s[1..], q)
      case Some(i) => Some(i + 1)
      case None => None
  }

  /** The dropdown index `document_complete` shows for a quality (0 if it were missing). */
  function IndexOfQuality(q: ArtworkThumbnailQuality): (i: int)
    ensures 0 <= i < |LoadArtworks| && LoadArtworks[i] == q
  {
    assert LoadArtworks[match q case High => 0 case Medium => 1 case Low => 2 case VeryLow => 3] == q;
    Position(LoadArtworks, q).GetOr(0)
  }

  /** The dropdown lists every quality once, so index and quality determine each other. */
  lemma IndexRoundTrip(i: int, q: ArtworkThumbnailQuality)
    ensures 0 <= i < |LoadArtworks| ==> IndexOfQuality(LoadArtworks[i]) == i
    ensures 0 <= IndexOfQuality(q) < |LoadArtworks| && QualityOfIndex(IndexOfQuality(q)) == q
  {
    assert q in LoadArtworks;
    if 0 <= i < |LoadArtworks| {
      assert forall j, k :: 0 <= j < k < |LoadArtworks| ==> LoadArtworks[j] != LoadArtworks[k];
    }
  }

  /** The artwork setting read from the dialog: quotes removed, parsed, 0 when unparseable. */
  function ArtworkFromValue(value: string): (q: ArtworkThumbnailQuality)
    ensures var v := ParseI32(RemoveChar(value, '"'));
      && (v.Some? && 0 <= v.value < |LoadArtworks| ==> q == LoadArtworks[v.value])
      && (v.Some? && (v.value < 0 || v.value >= |LoadArtworks|) ==> q == High)
      && (v.None? ==> q == High)
  {
    QualityOfIndex(ParseI32(RemoveChar(value, '"')).GetOr(0))
  }

  /** What the dialog does with values that are not an index: they all select `High`. */
  lemma ArtworkFallback(value: string)
    ensures ParseI32(RemoveChar(value, '"')).None? ==> ArtworkFromValue(value) == High
    ensures ArtworkFromValue("\"-1\"") == High
    ensures ArtworkFromValue("") == High
  {
    ParseShowInt(-1);
    assert RemoveChar("\"-1\"", '"') == ShowInt(-1);
  }

  /**
   * Round trip through the dialog: the index shown for a quality, read back
   * as its decimal text (with or without the quotes of a string value),
   * selects the same quality.
   */
  lemma ArtworkValueRoundTrip(q: ArtworkThumbnailQuality)
    ensures ArtworkFromValue(ShowInt(IndexOfQuality(q))) == q
    ensures ArtworkFromValue("\"" + ShowInt(IndexOfQuality(q)) + "\"") == q
  {
    IndexRoundTrip(0, q);
    var text := ShowInt(IndexOfQuality(q));
    ParseShowInt(IndexOfQuality(q));
    assert '"' !in text by {
      assert AllDigits(text);
    }
    assert RemoveChar("\"" + text + "\"", '"') == text by {
      var quoted := "\"" + text + "\"";
      assert quoted[1..] == text + "\"";
      assert RemoveChar(quoted, '"') == RemoveChar(text + "\"", '"');
      RemoveCharAppend(text, '"');
    }
  }

  /** Removing `c` from `t + [c]` gives `t` when `t` holds no `c`. */
  lemma {:induction false} RemoveCharAppend(t: string, c: char)
    requires c !in t
    ensures RemoveChar(t + [c], c) == t
  {
    if |t| > 0 {
      assert (t + [c])[1..] == t[1..] + [c];
      RemoveCharAppend(t[1..], c);
      assert [t[0]] + t[1..] == t;
    }
  }

  /** The theme read from the dialog: quotes removed, kept unless blank, `hope_diamond` when blank. */
  function ThemeFromValue(value: string): (theme: string)
    ensures !IsBlank(theme) && '"' !in theme
    ensures theme == RemoveChar(value, '"') || theme == DefaultTheme
    ensures !IsBlank(RemoveChar(value, '"')) ==> theme == RemoveChar(value, '"')
  {
    var t := RemoveChar(value, '"');
    TrimEmptyIffBlank(t);
    assert !IsWhitespace(DefaultTheme[0]);
    if Trim(t) != "" then t else DefaultTheme
  }

  /** The volume read from the slider: quotes removed, parsed, 100 when unparseable, cut to `u16`. */
  function VolumeFromValue(value: string): (v: U16)
    ensures ParseI32(RemoveChar(value, '"')).None? ==> v == DefaultVolume
    ensures ParseI32(RemoveChar(value, '"')).Some? ==> (v - ParseI32(RemoveChar(value, '"')).value) % 0x1_0000 == 0
  {
    AsU16(ParseI32(RemoveChar(value, '"')).GetOr(DefaultVolume))
  }

  /** A slider position in 0..65535 is stored as is; -1 wraps to 65535. */
  lemma VolumeValues(n: int)
    requires 0 <= n < 0x1_0000
    ensures VolumeFromValue(ShowInt(n)) == n
    ensures VolumeFromValue("-1") == 0xFFFF
  {
    ParseShowInt(n);
    ParseShowInt(-1);
    assert ShowInt(-1) == "-1";
    assert '"' !in ShowInt(n) by {
      assert AllDigits(ShowInt(n));
    }
  }

  /** The settings as `configuration.toml` holds them. */
  datatype Settings = Settings(loadArtworks: ArtworkThumbnailQuality, volume: U16, themeName: string)

  /** The event codes the settings handler distinguishes. */
  datatype BehaviorEvent = ButtonClick | OtherEvent

  /** What `document_complete` writes into the dialog: volume, theme, artwork index, and the theme applied. */
  datatype DialogValues = DialogValues(volume: int, theme: string, artworkIndex: int, appliedTheme: string)

  /** The default settings. */
  function DefaultSettings(): Settings
  {
    Settings(High, DefaultVolume, DefaultTheme)
  }

  /** `Config::new`'s choice: the parsed file when it was read and parsed, the defaults otherwise. */
  function LoadedSettings(file: Option<string>, parse: string -> Option<Settings>): (s: Settings)
    ensures file.None? ==> s == DefaultSettings()
    ensures file.Some? && parse(file.value).None? ==> s == DefaultSettings()
    ensures file.Some? && parse(file.value).Some? ==> s == parse(file.value).value
  {
    if file.Some? && parse(file.value).Some? then parse(file.value).value else DefaultSettings()
  }

  class Config {
    var loadArtworks: ArtworkThumbnailQuality
    var volume: U16
    var themeName: string

    /** The stored settings as one value. */
    function Value(): Settings
      reads this
    {
      Settings(loadArtworks, volume, themeName)
    }

    /** `Config::default`. */
    constructor Default()
      ensures Value() == DefaultSettings()
      ensures loadArtworks == High && volume == 100 && themeName == "hope_diamond"
    {
      loadArtworks := High;
      volume := DefaultVolume;
      themeName := DefaultTheme;
    }

    /**
     * `Config::new`: the settings of `configuration.toml` when the file
     * (`file`, `None` when it cannot be read) parses; the defaults otherwise.
     */
    constructor New(file: Option<string>, parse: string -> Option<Settings>)
      ensures Value() == LoadedSettings(file, parse)
    {
      var parsed := if file.Some? then parse(file.value) else None;
      if parsed.Some? {
        loadArtworks := parsed.value.loadArtworks;
        volume := parsed.value.volume;
        themeName := parsed.value.themeName;
      } else {
        loadArtworks := High;
        volume := DefaultVolume;
        themeName := DefaultTheme;
      }
    }

    /**
     * `set_settings`: stores the artwork quality and theme read from the
     * dialog's `#artwork-quality` and `#theme` values; the volume is kept.
     */
    method SetSettings(artworkValue: string, themeValue: string)
      modifies this
      ensures loadArtworks == ArtworkFromValue(artworkValue)
      ensures themeName == ThemeFromValue(themeValue)
      ensures volume == old(volume)
    {
      var index := ParseI32(RemoveChar(artworkValue, '"')).GetOr(0);
      var theme := RemoveChar(themeValue, '"');
      loadArtworks := if |LoadArtworks| - 1 < AsUsize(index) then High else LoadArtworks[AsUsize(index)];
      TrimEmptyIffBlank(theme);
      themeName := if Trim(theme) != "" then theme else DefaultTheme;
    }

    /** `get_load_artworks`: the resolution number of the stored quality. */
    function GetLoadArtworks(): (d: int)
      reads this
      ensures d in {7, 6, 42, 22}
      ensures d == Discriminant(loadArtworks)
    {
      Discriminant(loadArtworks)
    }

    /** `document_complete`: the values the dialog is populated with. */
    function DocumentComplete(): (d: DialogValues)
      reads this
      ensures d.volume == volume && d.theme == themeName && d.appliedTheme == themeName
      ensures 0 <= d.artworkIndex < |LoadArtworks| && LoadArtworks[d.artworkIndex] == loadArtworks
    {
      IndexRoundTrip(0, loadArtworks);
      DialogValues(volume, themeName, IndexOfQuality(loadArtworks), themeName)
    }

    /**
     * `on_event`: a button click on the element with id `volume` stores the
     * slider value and reports the event handled; every other event is
     * left unhandled and changes nothing.
     */
    method OnEvent(code: BehaviorEvent, id: Option<string>, value: string) returns (handled: bool)
      modifies this
      ensures handled <==> code == ButtonClick && id == Some("volume")
      ensures handled ==> volume == VolumeFromValue(value)
      ensures !handled ==> volume == old(volume)
      ensures loadArtworks == old(loadArtworks) && themeName == old(themeName)
    {
      handled := false;
      if code == ButtonClick {
        if id.Some? && id.value == "volume" {
          var trackValue := ParseI32(RemoveChar(value, '"')).GetOr(DefaultVolume);
          volume := AsU16(trackValue);
          handled := true;
        }
      }
    }
  }

  /**
   * Showing the stored settings in the dialog and saving the dialog again
   * leaves them as they were, for every theme `set_settings` can store.
   */
  method DialogRoundTrip(c: Config)
    requires !IsBlank(c.themeName) && '"' !in c.themeName
    modifies c
    ensures c.Value() == old(c.Value())
  {
    var shown := c.DocumentComplete();
    IndexRoundTrip(0, c.loadArtworks);
    ArtworkValueRoundTrip(c.loadArtworks);
    c.SetSettings(ShowInt(shown.artworkIndex), shown.theme);
  }
}
