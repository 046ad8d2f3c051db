// One day of the itinerary page (src/components/ItineraryDate.tsx): the
// local list of places, the add guard, the coordinates taken from a name
// ending in "|lat, lon", the search trigger, and the drag-and-drop reorder.
module ItineraryDay {
  import opened Common
  import opened Text
  import opened Schema

  /** A place as the day's list holds it; coordinates are kept as the text `parseFloat` reads. */
  datatype Place = Place(
    id: Id, name: string, description: Option<string>,
    latitude: Option<string>, longitude: Option<string>, address: Option<string>)

  /** A geocoder result the user picked: its coordinates and display name. */
  datatype Picked = Picked(lat: string, lon: string, address: string)

  /** The coordinates and address sent with a new place. */
  datatype Location = Location(lat: Option<string>, lon: Option<string>, address: Option<string>)

  // ---------------------------------------------------------------------
  // Adding and deleting

  /** The guard of `handleAddPlace`: a name that is not blank. */
  function AddAccepted(name: string): (r: bool)
    ensures r <==> !IsBlank(name)
  {
    TrimEmptyIffBlank(name);
    Trim(name) != ""
  }

  /** The place added to the list after the server accepted it: trimmed name, and a description only when one was typed. */
  function NewPlace(id: Id, name: string, description: string, at: Location): (p: Place)
    ensures p.id == id && p.name == Trim(name)
    ensures p.description.None? <==> IsBlank(description)
    ensures p.description.Some? ==> p.description.value == Trim(description)
    ensures p.latitude == at.lat && p.longitude == at.lon && p.address == at.address
  {
    TrimEmptyIffBlank(description);
    var d := Trim(description);
    Place(id, Trim(name), if d == "" then None else Some(d), at.lat, at.lon, at.address)
  }

  /** The key a successful delete filters on: `items.filter((i) => i.id !== id)` is `WithoutKey(items, PlaceId, id)`. */
  function PlaceId(p: Place): Id
  {
    p.id
  }

  /** The ids of the places, in list order (`items.map((i) => i.id)`). */
  function Ids(places: seq<Place>): (r: seq<Id>)
    ensures |r| == |places| && forall i :: 0 <= i < |places| ==> r[i] == places[i].id
  {
    seq(|places|, i requires 0 <= i < |places| => places[i].id)
  }

  /** With distinct ids, deleting the id of the place at `i` removes exactly that place and keeps the others in order. */
  lemma DeleteRemovesExactlyOne(places: seq<Place>, i: nat)
    requires i < |places| && NoDuplicates(Ids(places))
    ensures WithoutKey(places, PlaceId, places[i].id) == places[..i] + places[i + 1..]
  {
    forall j | 0 <= j < |places| && j != i
      ensures PlaceId(places[j]) != PlaceId(places[i])
    {
      if j < i {
        assert Ids(places)[j] != Ids(places)[i];
      } else {
        assert Ids(places)[i] != Ids(places)[j];
      }
    }
    WithoutUniqueKey(places, PlaceId, i);
  }

  // ---------------------------------------------------------------------
  // Coordinates typed into the name

  predicate IsComma(c: char)
  {
    c == ','
  }

  predicate IsNotDigit(c: char)
  {
    !IsDigit(c)
  }

  /** The number of digits `u` begins with. */
  function LeadingDigits(u: string): (k: nat)
    ensures k <= |u| && AllDigits(u[..k]) && (k == |u| || !IsDigit(u[k]))
  {
    match FindIndex(u, IsNotDigit)
    case None => |u|
    case Some(k) => k
  }

  /** `-?\d+\.?\d*`: an optional minus, at least one digit, then optionally a point and more digits. */
  predicate IsNumberText(t: string)
  {
    var u := if |t| > 0 && t[0] == '-' then t[1..] else t;
    var k := LeadingDigits(u);
    1 <= k && (k == |u| || (u[k] == '.' && AllDigits(u[k + 1..])))
  }

  /** A number text is not empty, has no comma, and does not begin with whitespace. */
  lemma NumberTextShape(t: string)
    requires IsNumberText(t)
    ensures |t| > 0 && !IsWhitespace(t[0])
    ensures forall j :: 0 <= j < |t| ==> !IsComma(t[j])
  {
    var signed := |t| > 0 && t[0] == '-';
    var u := if signed then t[1..] else t;
    var k := LeadingDigits(u);
    forall j | 0 <= j < |u|
      ensures !IsComma(u[j])
    {
      if j < k {
        assert u[..k][j] == u[j];
      } else if j > k {
        assert u[k + 1..][j - k - 1] == u[j];
      }
    }
    assert u[..k][0] == u[0];
    forall j | 0 <= j < |t|
      ensures !IsComma(t[j])
    {
      if signed && j > 0 {
        assert t[j] == u[j - 1];
      } else if !signed {
        assert t[j] == u[j];
      }
    }
  }

  /** The two numbers of a "|lat, lon" suffix and the whitespace between the comma and the second. */
  datatype CoordinateText = CoordinateText(lat: string, gap: string, lon: string)

  /** What a match covers after the bar: the first number, the comma, the gap and the second number. */
  function Body(c: CoordinateText): string
  {
    c.lat + [','] + c.gap + c.lon
  }

  /** What a match covers: the bar, then the body. */
  function MatchedText(c: CoordinateText): string
  {
    ['|'] + Body(c)
  }

  /** A well-formed coordinate match: two number texts with only whitespace between the comma and the second. */
  predicate WellFormed(c: CoordinateText)
  {
    IsNumberText(c.lat) && IsBlank(c.gap) && IsNumberText(c.lon)
  }

  /** Reading "lat,<blank>lon" after a '|': split at the first comma and skip the whitespace after it. */
  function SplitCoordinates(rest: string): (r: Option<CoordinateText>)
    ensures r.Some? ==> WellFormed(r.value) && Body(r.value) == rest
  {
    match FindIndex(rest, IsComma)
    case None => None
    case Some(k) =>
      var lon := TrimStart(rest[k + 1..]);
      CommaSplit(rest, k, lon);
      var c := CoordinateText(rest[..k], rest[k + 1..|rest| - |lon|], lon);
      if IsNumberText(c.lat) && IsNumberText(c.lon) then Some(c) else None
  }

  /** Cutting `rest` at a comma and at the start of what `trimStart` keeps after it loses no character. */
  lemma CommaSplit(rest: string, k: nat, lon: string)
    requires k < |rest| && rest[k] == ',' && lon == TrimStart(rest[k + 1..])
    ensures |lon| <= |rest| - k - 1
    ensures IsBlank(rest[k + 1..|rest| - |lon|])
    ensures Body(CoordinateText(rest[..k], rest[k + 1..|rest| - |lon|], lon)) == rest
  {
    var after := rest[k + 1..];
    TrimStartSpec(after);
    var cut := |rest| - |lon|;
    assert after[..|after| - |lon|] == rest[k + 1..cut];
    assert lon == rest[cut..];
    BodyOfCuts(rest, k, cut);
  }

  /** Cutting a text before and after a comma and once more further on gives the pieces of a body. */
  lemma BodyOfCuts(rest: string, k: nat, cut: nat)
    requires k < cut <= |rest| && rest[k] == ','
    ensures Body(CoordinateText(rest[..k], rest[k + 1..cut], rest[cut..])) == rest
  {
    assert rest[..k] + [','] == rest[..k + 1];
    assert rest[..k + 1] + rest[k + 1..cut] == rest[..cut];
    assert rest[..cut] + rest[cut..] == rest;
  }

  /** Blank text before a string that does not begin with whitespace is exactly what `trimStart` removes. */
  lemma {:induction false} TrimStartSkipsBlank(ws: string, t: string)
    requires IsBlank(ws) && (t == [] || !IsWhitespace(t[0]))
    ensures TrimStart(ws + t) == t
    decreases |ws|
  {
    if |ws| == 0 {
      assert ws + t == t;
    } else {
      assert (ws + t)[1..] == ws[1..] + t;
      TrimStartSkipsBlank(ws[1..], t);
    }
  }

  /** The pieces of "lat,<gap>lon" sit where the split looks for them. */
  lemma CommaAfter(c: CoordinateText)
    ensures var s := Body(c);
      && |s| == |c.lat| + 1 + |c.gap| + |c.lon|
      && s[..|c.lat|] == c.lat && s[|c.lat|] == ','
      && s[|c.lat| + 1..] == c.gap + c.lon && s[|c.lat| + 1..|s| - |c.lon|] == c.gap
  {
    var s := Body(c);
    assert s == c.lat + ([','] + (c.gap + c.lon));
  }

  /** No position before the first number's end holds a comma. */
  lemma NoCommaInFirst(c: CoordinateText)
    requires IsNumberText(c.lat)
    ensures forall j :: 0 <= j < |c.lat| ==> !IsComma(Body(c)[j])
  {
    NumberTextShape(c.lat);
    CommaAfter(c);
    forall j | 0 <= j < |c.lat|
      ensures !IsComma(Body(c)[j])
    {
      assert Body(c)[..|c.lat|][j] == c.lat[j];
    }
  }

  /** Reading back the body of a well-formed match gives that match. */
  lemma SplitCoordinatesComplete(c: CoordinateText)
    requires WellFormed(c)
    ensures SplitCoordinates(Body(c)) == Some(c)
  {
    var s := Body(c);
    var k := |c.lat|;
    CommaAfter(c);
    NoCommaInFirst(c);
    FindIndexIsFirst(s, IsComma, k);
    NumberTextShape(c.lon);
    TrimStartSkipsBlank(c.gap, c.lon);
    var lon := TrimStart(s[k + 1..]);
    assert lon == c.lon;
    assert s[..k] == c.lat && s[k + 1..|s| - |lon|] == c.gap;
  }

  /** `name` ends with `suffix` (the `$` anchor of the pattern). */
  predicate EndsWith(name: string, suffix: string)
  {
    |suffix| <= |name| && name[|name| - |suffix|..] == suffix
  }

  /** The match the pattern makes when it starts at position `i`: a bar there, then coordinates up to the end. */
  function MatchAt(name: string, i: nat): (r: Option<CoordinateText>)
    ensures r.Some? ==> WellFormed(r.value) && EndsWith(name, MatchedText(r.value))
  {
    if i < |name| && name[i] == '|' then
      assert name[i..] == ['|'] + name[i + 1..];
      SplitCoordinates(name[i + 1..])
    else None
  }

  /** Whether the pattern matches at each position of the name. */
  function Hits(name: string): (h: seq<bool>)
    ensures |h| == |name|
    ensures forall i :: 0 <= i < |name| ==> h[i] == MatchAt(name, i).Some?
  {
    seq(|name|, i requires 0 <= i < |name| => MatchAt(name, i).Some?)
  }

  predicate IsTrue(b: bool)
  {
    b
  }

  /** The pattern matches at `i` and at no earlier position. */
  predicate IsLeftmostMatch(name: string, i: nat)
  {
    i < |name| && MatchAt(name, i).Some? && forall j :: 0 <= j < i ==> MatchAt(name, j).None?
  }

  /**
   * `/\|(-?\d+\.?\d*),\s*(-?\d+\.?\d*)$/.exec(name)`: the leftmost position at
   * which the pattern matches, so coordinates come only from a "|lat, lon"
   * that ends the name.
   */
  function CoordinateSuffix(name: string): (r: Option<CoordinateText>)
    ensures r.None? <==> forall i :: 0 <= i < |name| ==> MatchAt(name, i).None?
    ensures r.Some? ==> exists i :: IsLeftmostMatch(name, i) && r == MatchAt(name, i)
    ensures r.Some? ==> WellFormed(r.value) && EndsWith(name, MatchedText(r.value))
  {
    var hits := Hits(name);
    match FindIndex(hits, IsTrue)
    case None => None
    case Some(i) =>
      assert IsLeftmostMatch(name, i);
      MatchAt(name, i)
  }

  /** A name that ends in a well-formed "|lat, lon" always yields coordinates. */
  lemma CoordinateSuffixComplete(prefix: string, c: CoordinateText)
    requires WellFormed(c)
    ensures CoordinateSuffix(prefix + MatchedText(c)).Some?
  {
    var name := prefix + MatchedText(c);
    assert name[|prefix|] == '|';
    assert name[|prefix| + 1..] == Body(c);
    SplitCoordinatesComplete(c);
    assert MatchAt(name, |prefix|).Some?;
  }

  /** The location sent with a new place: a picked result wins; otherwise the name's suffix, with no address. */
  function LocationFor(name: string, picked: Option<Picked>): (r: Location)
    ensures picked.Some? ==> r == Location(Some(picked.value.lat), Some(picked.value.lon), Some(picked.value.address))
    ensures picked.None? ==> r.address.None? && (r.lat.Some? <==> CoordinateSuffix(name).Some?)
    ensures picked.None? && r.lat.Some? ==>
      r.lat.value == CoordinateSuffix(name).value.lat && r.lon == Some(CoordinateSuffix(name).value.lon)
  {
    if picked.Some? then Location(Some(picked.value.lat), Some(picked.value.lon), Some(picked.value.address))
    else
      var c := CoordinateSuffix(name);
      if c.None? then Location(None, None, None) else Location(Some(c.value.lat), Some(c.value.lon), None)
  }

  // ---------------------------------------------------------------------
  // The search trigger

  /** What the search effect and `searchPlaces` do. */
  datatype SearchStep = Unchanged | ClearResults | Search(query: string)

  /**
   * The search rule: nothing happens while a picked place is in the add
   * form; a trimmed query shorter than 3 characters clears the results;
   * otherwise the trimmed query is searched.
   */
  function SearchTrigger(isAdding: bool, newPlaceName: string, searchQuery: string, hasPicked: bool): (r: SearchStep)
    ensures r.Unchanged? <==> isAdding && hasPicked
    ensures r.Search? ==> |r.query| >= 3 && r.query == Trim(if isAdding then newPlaceName else searchQuery)
    ensures r.ClearResults? <==> !(isAdding && hasPicked) && |Trim(if isAdding then newPlaceName else searchQuery)| < 3
  {
    var q := Trim(if isAdding then newPlaceName else searchQuery);
    if isAdding && hasPicked then Unchanged
    else if |q| < 3 then ClearResults
    else Search(q)
  }

  /** Surrounding whitespace never changes the outcome. */
  lemma SearchIgnoresSurroundingSpace(isAdding: bool, newPlaceName: string, searchQuery: string, hasPicked: bool)
    ensures SearchTrigger(isAdding, Trim(newPlaceName), Trim(searchQuery), hasPicked)
         == SearchTrigger(isAdding, newPlaceName, searchQuery, hasPicked)
  {
    if isAdding {
      TrimIdempotent(newPlaceName);
    } else {
      TrimIdempotent(searchQuery);
    }
  }

  /** A searched query neither starts nor ends with whitespace. */
  lemma SearchedQueryTrimmed(isAdding: bool, newPlaceName: string, searchQuery: string, hasPicked: bool)
    ensures var r := SearchTrigger(isAdding, newPlaceName, searchQuery, hasPicked);
      r.Search? ==> !IsWhitespace(r.query[0]) && !IsWhitespace(r.query[|r.query| - 1])
  {
    TrimEndsAreNotBlank(if isAdding then newPlaceName else searchQuery);
  }

  // ---------------------------------------------------------------------
  // Drag and drop

  /** The index of the place with the given id (`findIndex`). */
  function IndexOf(places: seq<Place>, id: Id): (i: nat)
    requires id in Ids(places)
    ensures i < |places| && places[i].id == id
    ensures forall j :: 0 <= j < i ==> places[j].id != id
  {
    var j :| 0 <= j < |places| && Ids(places)[j] == id;
    FindIndex(places, (p: Place) => p.id == id).value
  }

  /**
   * `onDragEnd`: no drop target, or a drop on the dragged place itself,
   * changes nothing; otherwise the dragged place moves to the target's index.
   */
  function DragEnd(places: seq<Place>, active: Id, over: Option<Id>): (r: Option<seq<Place>>)
    requires active in Ids(places) && (over.Some? ==> over.value in Ids(places))
    ensures r.None? <==> over.None? || over.value == active
    ensures r.Some? ==> |r.value| == |places| && r.value[IndexOf(places, over.value)] == places[IndexOf(places, active)]
  {
    if over.None? || active == over.value then None
    else Some(Move(places, IndexOf(places, active), IndexOf(places, over.value)))
  }

  /** `Ids` distributes over concatenation. */
  lemma IdsAppend(a: seq<Place>, b: seq<Place>)
    ensures Ids(a + b) == Ids(a) + Ids(b)
  {
  }

  /** Taking the ids commutes with moving an element. */
  lemma IdsOfMove(places: seq<Place>, from: nat, to: nat)
    requires from < |places| && to < |places|
    ensures Ids(Move(places, from, to)) == Move(Ids(places), from, to)
  {
    var r := Move(places, from, to);
    var a := Ids(r);
    var b := Move(Ids(places), from, to);
    IdsAppend(r[..to], r[to + 1..]);
    IdsAppend(places[..from], places[from + 1..]);
    assert Ids(r[..to]) == a[..to] && Ids(r[to + 1..]) == a[to + 1..];
    assert Ids(places[..from]) == Ids(places)[..from] && Ids(places[from + 1..]) == Ids(places)[from + 1..];
    assert a[..to] + a[to + 1..] == b[..to] + b[to + 1..];
    assert a[..to] == b[..to] && a[to + 1..] == b[to + 1..] by {
      assert |a[..to]| == |b[..to]|;
      assert (a[..to] + a[to + 1..])[..to] == a[..to];
      assert (b[..to] + b[to + 1..])[..to] == b[..to];
      assert (a[..to] + a[to + 1..])[to..] == a[to + 1..];
      assert (b[..to] + b[to + 1..])[to..] == b[to + 1..];
    }
    assert a == a[..to] + [a[to]] + a[to + 1..];
    assert b == b[..to] + [b[to]] + b[to + 1..];
  }

  /** The id list a drag persists is a reordering of the ids shown before it, and so is the new list of places. */
  lemma DragPersistsPermutation(places: seq<Place>, active: Id, over: Option<Id>)
    requires active in Ids(places) && (over.Some? ==> over.value in Ids(places))
    ensures var r := DragEnd(places, active, over);
      r.Some? ==> multiset(r.value) == multiset(places) && multiset(Ids(r.value)) == multiset(Ids(places))
  {
    if over.Some? && active != over.value {
      var from := IndexOf(places, active);
      var to := IndexOf(places, over.value);
      MovePermutes(places, from, to);
      IdsOfMove(places, from, to);
      MovePermutes(Ids(places), from, to);
    }
  }
}
