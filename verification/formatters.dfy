/**
 * Text formatters for captions, and the configuration syntax that selects
 * one: "name" or "name:size", the name matched case-insensitively against a
 * registry built from the list of available formatters.
 *
 * strconv.ParseFloat is a parameter, and sizes are exact reals rather than
 * float32.
 */
module Formatters {
  import opened Wrappers
  import opened Text
  import ImageDateTime
  import ImageLocation

  datatype Formatter = DateTimeFormatter | LocationFormatter {
    function Name(): string {
      match this
      case DateTimeFormatter => ImageDateTime.Name
      case LocationFormatter => ImageLocation.Name
    }
  }

  /** The available formatters, in the order the registry is built from. */
  const Available: seq<Formatter> := [DateTimeFormatter, LocationFormatter]

  /** init: register each formatter under its name; a later one would replace an earlier one. */
  function BuildRegistry(fs: seq<Formatter>): (r: map<string, Formatter>)
    ensures forall name :: name in r <==> exists i :: 0 <= i < |fs| && fs[i].Name() == name
    ensures forall name :: name in r ==> r[name].Name() == name
    decreases |fs|
  {
    if |fs| == 0 then map[]
    else
      var prefix := fs[..|fs| - 1];
      var last := fs[|fs| - 1];
      var r := BuildRegistry(prefix)[last.Name() := last];
      assert forall i :: 0 <= i < |prefix| ==> prefix[i] == fs[i];
      r
  }

  const Registry := BuildRegistry(Available)

  /** The registry maps exactly the two formatter names, each to its formatter. */
  lemma RegistryContents()
    ensures Registry == map[ImageDateTime.Name := DateTimeFormatter, ImageLocation.Name := LocationFormatter]
  {
    var r := Registry;
    assert Available[0].Name() == "image-date-time";
    assert Available[1].Name() == "image-location";
    assert r.Keys == {"image-date-time", "image-location"};
  }

  datatype SizeError = InvalidSize(text: string)

  /** What parseFormatter returns: the name, the size, and an error if the size did not parse. */
  datatype Parsed = Parsed(name: string, size: real, err: Option<SizeError>)

  const DefaultSize: real := 16.0

  /**
   * parseFormatter: split at the first ':'; the lowercased left part is the
   * name, the right part (if any) the size. Without ':' the size is 16; an
   * unparsable size gives size 0 and an error.
   */
  function ParseFormatter(text: string, parseFloat: string -> Option<real>): (r: Parsed)
    ensures ':' !in text ==> r == Parsed(ToLower(text), DefaultSize, None)
    ensures ':' in text ==>
      var cut := CutAt(text, ':');
      && r.name == ToLower(cut.before)
      && (r.err.None? <==> parseFloat(cut.after).Some?)
      && (r.err.None? ==> r.size == parseFloat(cut.after).value)
      && (r.err.Some? ==> r.size == 0.0 && r.err.value == InvalidSize(cut.after))
  {
    var cut := CutAt(text, ':');
    var name := ToLower(cut.before);
    if !cut.found then Parsed(name, DefaultSize, None)
    else
      match parseFloat(cut.after)
      case None => Parsed(name, 0.0, Some(InvalidSize(cut.after)))
      case Some(size) => Parsed(name, size, None)
  }

  /** Writing a name and a size text with a ':' between them and parsing it back gives the name (lowercased) and the size. */
  lemma ParseRoundTrip(name: string, sizeText: string, parseFloat: string -> Option<real>)
    requires ':' !in name
    ensures ParseFormatter(name + ":" + sizeText, parseFloat).name == ToLower(name)
    ensures ParseFormatter(name + ":" + sizeText, parseFloat).err.None? <==> parseFloat(sizeText).Some?
    ensures parseFloat(sizeText).Some? ==> ParseFormatter(name + ":" + sizeText, parseFloat).size == parseFloat(sizeText).value
  {
    CutRoundTrip(name, sizeText, ':');
    assert name + ":" + sizeText == name + [':'] + sizeText;
    assert ':' in name + ":" + sizeText by { assert (name + ":" + sizeText)[|name|] == ':'; }
  }

  /** A formatter together with the text size it was configured with. */
  datatype Sized = Sized(formatter: Formatter, size: real)

  datatype FormatError =
    | FailedParsing(text: string, cause: SizeError)
    | UnsupportedFormatter(text: string, expected: set<string>)

  /**
   * FormatConfig.UnmarshalText: succeeds with the registered formatter and
   * the parsed size; a registered name with a bad size fails parsing, and an
   * unregistered name lists the registered ones.
   */
  function UnmarshalText(text: string, parseFloat: string -> Option<real>): (r: Result<Sized, FormatError>)
    ensures var p := ParseFormatter(text, parseFloat);
      && (r.Success? <==> p.err.None? && p.name in Registry)
      && (r.Success? ==> r.value == Sized(Registry[p.name], p.size) && r.value.formatter.Name() == p.name)
      && (r.Failure? && p.name in Registry ==> r.error == FailedParsing(text, p.err.value))
      && (p.name !in Registry ==> r.error == UnsupportedFormatter(text, Registry.Keys))
  {
    var p := ParseFormatter(text, parseFloat);
    if p.err.None? && p.name in Registry then Success(Sized(Registry[p.name], p.size))
    else if p.name in Registry then Failure(FailedParsing(text, p.err.value))
    else Failure(UnsupportedFormatter(text, Registry.Keys))
  }

  /** Any casing of a registered name without a size selects that formatter at the default size. */
  lemma AnyCasingSelects(text: string, f: Formatter, parseFloat: string -> Option<real>)
    requires f in Available && ':' !in text && EqualFold(text, f.Name())
    ensures UnmarshalText(text, parseFloat) == Success(Sized(f, DefaultSize))
  {
    NameIsLower(f);
    ToLowerMatchesKey(text, f.Name());
    var p := ParseFormatter(text, parseFloat);
    assert p == Parsed(f.Name(), DefaultSize, None);
    RegistryContents();
    assert Registry[f.Name()] == f;
  }

  /** Formatter names are written in lower case. */
  lemma NameIsLower(f: Formatter)
    ensures forall i :: 0 <= i < |f.Name()| ==> !IsUpper(f.Name()[i])
  {
    var name := f.Name();
    assert name == "image-date-time" || name == "image-location";
  }

  /** "image-location:24" selects the location formatter at size 24 when the size parses as 24. */
  lemma SizedExample(parseFloat: string -> Option<real>)
    requires parseFloat("24") == Some(24.0)
    ensures UnmarshalText("image-location:24", parseFloat) == Success(Sized(LocationFormatter, 24.0))
  {
    var name := ImageLocation.Name;
    assert "image-location:24" == name + ":" + "24";
    ParseRoundTrip(name, "24", parseFloat);
    LocationNameIsLower();
    RegistryContents();
  }

  lemma LocationNameIsLower()
    ensures ToLower(ImageLocation.Name) == ImageLocation.Name
  {
    var name := ImageLocation.Name;
    assert forall i :: 0 <= i < |name| ==> !IsUpper(name[i]);
    ToLowerOfLower(name);
  }

  /** Mixed case without a size selects the location formatter at the default size. */
  lemma CasedExample(parseFloat: string -> Option<real>)
    ensures UnmarshalText("Image-Location", parseFloat) == Success(Sized(LocationFormatter, DefaultSize))
  {
    var text := "Image-Location";
    assert ':' !in text by {
      forall i | 0 <= i < |text| ensures text[i] != ':' { }
    }
    assert EqualFold(text, LocationFormatter.Name());
    AnyCasingSelects(text, LocationFormatter, parseFloat);
  }
}
