/**
  The listing projection of `HomeService.gethomes`: every row the home query
  returns becomes a response whose `image` is the URL of the row's first
  image and which has no `images` field.
 */
module HomeService {
  import opened Wrappers

  datatype PropertyType = RESIDENTIAL | CONDO

  /** An image of a home, as selected: its URL only. */
  datatype Image = Image(url: string)

  /** A row of the home query: the selected columns and the related images. */
  datatype HomeRow = HomeRow(
    id: int,
    address: string,
    city: string,
    price: real,
    propertyType: PropertyType,
    numberOfBathrooms: real,
    numberOfBedrooms: int,
    images: seq<Image>)

  /** The row with `image` added and `images` removed. */
  datatype Home = Home(
    id: int,
    address: string,
    city: string,
    price: real,
    propertyType: PropertyType,
    numberOfBathrooms: real,
    numberOfBedrooms: int,
    image: string)

  /** The response wrapper, taken as an opaque box around the record. */
  datatype HomeResponseDto = HomeResponseDto(home: Home)

  /** `{ ...home, image: home.images[0].url }` followed by `delete images`. */
  function ToHome(row: HomeRow): Home
    requires |row.images| > 0
  {
    Home(row.id, row.address, row.city, row.price, row.propertyType,
         row.numberOfBathrooms, row.numberOfBedrooms, row.images[0].url)
  }

  /** Puts a list of images back in place of `image`: the inverse of `ToHome` on the other fields. */
  function WithImages(home: Home, images: seq<Image>): HomeRow
  {
    HomeRow(home.id, home.address, home.city, home.price, home.propertyType,
            home.numberOfBathrooms, home.numberOfBedrooms, images)
  }

  /** Every row has an image, so `images[0].url` can be read of each. */
  predicate AllHaveImages(rows: seq<HomeRow>)
  {
    forall k :: 0 <= k < |rows| ==> |rows[k].images| > 0
  }

  /**
    `homes.map(...)`: the rows projected in order. Reading `images[0].url`
    of a row without images throws, which rejects the whole call (None).
   */
  function GetHomes(rows: seq<HomeRow>): (r: Option<seq<HomeResponseDto>>)
    ensures r.Some? <==> AllHaveImages(rows)
    ensures r.Some? ==> |r.value| == |rows|
  {
    if rows == [] then Some([])
    else if |rows[0].images| == 0 then None
    else
      match GetHomes(rows[1..])
      case None => None
      case Some(rest) => Some([HomeResponseDto(ToHome(rows[0]))] + rest)
  }

  // ---------------------------------------------------------------------------
  // Properties of the projection

  /**
    The projection loses only the images: the other fields are carried over,
    `image` is the first URL, and restoring the images gives the row back.
   */
  lemma ToHomeKeepsFields(row: HomeRow)
    requires |row.images| > 0
    ensures ToHome(row).image == row.images[0].url
    ensures WithImages(ToHome(row), row.images) == row
  {
  }

  /** Rows that agree on all but their later images project alike. */
  lemma ToHomeReadsFirstImageOnly(row1: HomeRow, row2: HomeRow)
    requires |row1.images| > 0 && |row2.images| > 0
    requires row1.images[0] == row2.images[0]
    requires row1.(images := []) == row2.(images := [])
    ensures ToHome(row1) == ToHome(row2)
  {
    assert row1 == row2.(images := row1.images);
  }

  /** Projecting a concatenation is concatenating the projections. */
  lemma {:induction false} GetHomesAppend(a: seq<HomeRow>, b: seq<HomeRow>)
    ensures GetHomes(a + b) ==
      if GetHomes(a).Some? && GetHomes(b).Some? then Some(GetHomes(a).value + GetHomes(b).value) else None
  {
    if a == [] {
      assert a + b == b;
      if GetHomes(b).Some? {
        assert [] + GetHomes(b).value == GetHomes(b).value;
      }
    } else {
      var ab := a + b;
      assert ab[0] == a[0] && ab[1..] == a[1..] + b;
      GetHomesAppend(a[1..], b);
      if |a[0].images| == 0 {
        assert GetHomes(a) == None && GetHomes(ab) == None;
      } else {
        var head := [HomeResponseDto(ToHome(a[0]))];
        var tail, rest := GetHomes(a[1..]), GetHomes(a[1..] + b);
        assert GetHomes(a) == if tail.Some? then Some(head + tail.value) else None;
        assert GetHomes(ab) == if rest.Some? then Some(head + rest.value) else None;
        if tail.Some? && GetHomes(b).Some? {
          assert head + (tail.value + GetHomes(b).value) == (head + tail.value) + GetHomes(b).value;
        }
      }
    }
  }

  /**
    The response at position `k` is the projection of the row at position
    `k`: the order of the rows is kept.
   */
  lemma {:induction false} GetHomesAt(rows: seq<HomeRow>, k: nat)
    requires GetHomes(rows).Some? && k < |rows|
    ensures |rows[k].images| > 0
    ensures GetHomes(rows).value[k] == HomeResponseDto(ToHome(rows[k]))
  {
    if k > 0 {
      GetHomesAt(rows[1..], k - 1);
    }
  }

  /** So each response has the first URL of its row, and nothing else of the row is lost. */
  lemma ResponseFromRow(rows: seq<HomeRow>, k: nat)
    requires GetHomes(rows).Some? && k < |rows|
    ensures GetHomes(rows).value[k].home.image == rows[k].images[0].url
    ensures WithImages(GetHomes(rows).value[k].home, rows[k].images) == rows[k]
  {
    GetHomesAt(rows, k);
  }
}
