/**
 Resolution of a free-text location name to the coordinates requested from
 the forecast service. getforecast.py and saveforecast.py carry the same
 branch: a case-insensitive prefix test, and an error for anything else,
 raised before any request is made.
 */
module Location {
  import opened Common

  datatype Coordinates = Coordinates(latitude: real, longitude: real)

  datatype LocationError = LocationNotSupported

  /** Coordinates used for every name starting with "wac" or "wak". */
  const WacCoordinates := Coordinates(54.75455, 9.87333)

  /** Coordinates used for every name starting with "fal". */
  const FalCoordinates := Coordinates(54.77019, 9.965711)

  const KelvinSign: char := '\U{212A}'

  /**
   Lower-casing of one character: ASCII capitals, plus the Kelvin sign, the one
   other character whose lower-case form is a letter of the prefixes looked for.
   */
  function LowerChar(c: char): char
  {
    if 'A' <= c <= 'Z' then (c as int - 'A' as int + 'a' as int) as char
    else if c == KelvinSign then 'k'
    else c
  }

  function Lower(s: string): (r: string)
    ensures |r| == |s|
  {
    seq(|s|, i requires 0 <= i < |s| => LowerChar(s[i]))
  }

  predicate StartsWith(s: string, prefix: string)
  {
    |prefix| <= |s| && s[..|prefix|] == prefix
  }

  /** The name's first three characters, lower-cased, when it has that many. */
  function Head3(location: string): string
  {
    if |location| < 3 then location else Lower(location[..3])
  }

  function Resolve(location: string): (r: Result<Coordinates, LocationError>)
    ensures r.Ok? <==> |location| >= 3 && Head3(location) in {"wac", "wak", "fal"}
    ensures r.Ok? ==> (r.value == WacCoordinates <==> Head3(location) != "fal")
    ensures r.Ok? ==> r.value == (if Head3(location) == "fal" then FalCoordinates else WacCoordinates)
    ensures r.Err? ==> r.error == LocationNotSupported
  {
    var name := Lower(location);
    if StartsWith(name, "wac") || StartsWith(name, "wak") then
      assert name[..3] == Lower(location[..3]);
      Ok(WacCoordinates)
    else if StartsWith(name, "fal") then
      assert name[..3] == Lower(location[..3]);
      Ok(FalCoordinates)
    else
      assert |location| >= 3 ==> name[..3] == Lower(location[..3]);
      Err(LocationNotSupported)
  }

  /** Lower-casing is idempotent, so the test is indifferent to the name's case. */
  lemma ResolveIgnoresCase(location: string)
    ensures Resolve(Lower(location)) == Resolve(location)
  {
    var once := Lower(location);
    assert Lower(once) == once;
  }

  /** Only the first three characters decide the outcome; the rest of the name is ignored. */
  lemma ResolveReadsOnlyPrefix(location: string, suffix: string)
    requires |location| >= 3
    ensures Resolve(location + suffix) == Resolve(location)
  {
    assert (location + suffix)[..3] == location[..3];
    var r1 := Resolve(location + suffix);
    var r2 := Resolve(location);
    assert r1.Ok? <==> r2.Ok?;
    if r1.Ok? {
      assert r1.value == WacCoordinates <==> r2.value == WacCoordinates;
      assert r1.value == WacCoordinates || r1.value == FalCoordinates;
    }
  }
}
