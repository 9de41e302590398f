/** Splitting the collected photos into pages of `rows * cols` and the page
    summary shown before the document is built. */
module Pagination {
  import opened Common

  /** Python's `a // b`, which rounds towards negative infinity. */
  function FloorDiv(a: int, b: int): int
    requires b != 0
  {
    if b > 0 then a / b else (-a) / (-b)
  }

  /** Python's `a % b`, which takes the sign of `b`. */
  function FloorMod(a: int, b: int): int
    requires b != 0
  {
    a - b * FloorDiv(a, b)
  }

  /** Python's `//` rounds down and its `%` takes the sign of the divisor:
      `a == b * (a // b) + a % b`, with the remainder in `[0, b)` for a
      positive divisor and in `(b, 0]` for a negative one. */
  lemma {:induction false} FloorDivIsFloor(a: int, b: int)
    requires b != 0
    ensures a == b * FloorDiv(a, b) + FloorMod(a, b)
    ensures b > 0 ==> 0 <= FloorMod(a, b) < b && b * FloorDiv(a, b) <= a < b * FloorDiv(a, b) + b
    ensures b < 0 ==> b < FloorMod(a, b) <= 0 && b * FloorDiv(a, b) + b < a <= b * FloorDiv(a, b)
  {
    if b < 0 {
      var q := (-a) / (-b);
      var m := (-a) % (-b);
      assert -a == (-b) * q + m && 0 <= m < -b;
      assert a - b * q == -m;
    }
  }

  /** The pages of capacity `k`: consecutive slices `s[i:i + k]` for
      `i = 0, k, 2k, …`, the last one clipped at the end of `s`. */
  function Chunks<T>(s: seq<T>, k: nat): seq<seq<T>>
    requires k > 0
    decreases |s|
  {
    if s == [] then []
    else
      var m := Min(k, |s|);
      [s[..m]] + Chunks(s[m..], k)
  }

  /** What `split_into_pages` returns for a page capacity `rows * cols`. */
  function Pages<T>(photos: seq<T>, rows: int, cols: int): seq<seq<T>> {
    var perPage := rows * cols;
    if perPage <= 0 then [photos] else Chunks(photos, perPage)
  }

  /** The pages concatenated in order. */
  function Flatten<T>(pages: seq<seq<T>>): seq<T> {
    if pages == [] then [] else pages[0] + Flatten(pages[1..])
  }

  /** One step of the slicing loop: the chunks of `s[i..]` are the slice
      starting at `i` followed by the chunks after it. */
  lemma ChunksFrom<T>(s: seq<T>, k: nat, i: nat)
    requires k > 0 && i < |s|
    ensures Chunks(s[i..], k) == [s[i..Min(i + k, |s|)]] + Chunks(s[Min(i + k, |s|)..], k)
  {
    var t := s[i..];
    var m := Min(k, |t|);
    assert t[..m] == s[i..Min(i + k, |s|)];
    assert t[m..] == s[Min(i + k, |s|)..];
  }

  /** Appending the page at `i` to the pages before it leaves the chunks
      still to come. */
  lemma PageStep<T>(s: seq<T>, k: nat, i: nat, done: seq<seq<T>>)
    requires k > 0 && i < |s|
    ensures (done + [s[i..Min(i + k, |s|)]]) + Chunks(s[Min(i + k, |s|)..], k)
      == done + Chunks(s[Min(i, |s|)..], k)
  {
    ChunksFrom(s, k, i);
    assert s[Min(i, |s|)..] == s[i..];
  }

  /** `split_into_pages(photos, rows, cols)`: the slicing loop. */
  method SplitIntoPages<T>(photos: seq<T>, rows: int, cols: int) returns (pages: seq<seq<T>>)
    ensures pages == Pages(photos, rows, cols)
    ensures rows * cols <= 0 ==> pages == [photos]
    ensures rows * cols > 0 ==> Flatten(pages) == photos
  {
    var perPage := rows * cols;
    if perPage <= 0 {
      return [photos];
    }
    pages := [];
    var i := 0;
    while i < |photos|
      invariant 0 <= i
      invariant pages + Chunks(photos[Min(i, |photos|)..], perPage) == Chunks(photos, perPage)
      decreases |photos| - i
    {
      var page := photos[i..Min(i + perPage, |photos|)];
      PageStep(photos, perPage, i, pages);
      pages := pages + [page];
      i := i + perPage;
    }
    assert photos[Min(i, |photos|)..] == [];
    assert pages + [] == pages;
    FlattenChunks(photos, perPage);
  }

  /** Concatenating the pages in order gives back the photos. */
  lemma {:induction false} FlattenChunks<T>(s: seq<T>, k: nat)
    requires k > 0
    ensures Flatten(Chunks(s, k)) == s
    decreases |s|
  {
    if s != [] {
      var m := Min(k, |s|);
      var c := Chunks(s, k);
      FlattenChunks(s[m..], k);
      assert c[1..] == Chunks(s[m..], k);
      assert s[..m] + s[m..] == s;
    }
  }

  /** Every page but the last is full, the last holds between one and `k`
      photos, and no photo gives no page. */
  lemma {:induction false} ChunkSizes<T>(s: seq<T>, k: nat)
    requires k > 0
    ensures var c := Chunks(s, k);
      && (s == [] <==> c == [])
      && (forall j :: 0 <= j < |c| - 1 ==> |c[j]| == k)
      && (c != [] ==> 1 <= |c[|c| - 1]| <= k)
    decreases |s|
  {
    if s != [] {
      var m := Min(k, |s|);
      var c := Chunks(s, k);
      ChunkSizes(s[m..], k);
      var rest := Chunks(s[m..], k);
      assert c == [s[..m]] + rest;
      if rest != [] {
        assert m == k;
        assert c[|c| - 1] == rest[|rest| - 1];
        forall j | 0 <= j < |c| - 1 ensures |c[j]| == k {
          if j > 0 { assert c[j] == rest[j - 1]; }
        }
      }
    }
  }

  /** Python's `//` by a positive divisor is pinned down by the bounds of
      the quotient it returns. */
  lemma DivUnique(a: int, k: int, q: int)
    requires k > 0 && k * q <= a < k * q + k
    ensures a / k == q
  {
    var d := a / k;
    var r := a % k;
    assert a == k * d + r && 0 <= r < k;
    if d > q {
      MulGrows(k, d - q);
    } else if d < q {
      MulGrows(k, q - d);
    }
  }

  lemma MulGrows(k: int, n: int)
    requires k > 0 && n >= 1
    ensures k * n >= k
  {
  }

  /** The summary returned by `calculate_pages_info`. */
  datatype PagesInfo = PagesInfo(
    totalPhotos: int,
    rows: int,
    cols: int,
    photosPerPage: int,
    totalPages: int,
    photosOnLastPage: int)

  /** `calculate_pages_info(photos_count, rows, cols)`; a page capacity of
      zero makes Python's `//` raise `ZeroDivisionError`. */
  function CalculatePagesInfo(count: int, rows: int, cols: int): (r: Result<PagesInfo, PyError>)
    ensures r.Failure? <==> rows * cols == 0
    ensures r.Failure? ==> r.error == ZeroDivisionError
    ensures r.Success? ==> (r.value.totalPhotos == count && r.value.rows == rows
      && r.value.cols == cols && r.value.photosPerPage == rows * cols)
  {
    var perPage := rows * cols;
    if perPage == 0 then Failure(ZeroDivisionError)
    else
      var totalPages := FloorDiv(count + perPage - 1, perPage);
      var last := FloorMod(count, perPage);
      var last' := if last == 0 && count > 0 then perPage else last;
      Success(PagesInfo(count, rows, cols, perPage, totalPages, last'))
  }

  /** For a positive capacity the summary agrees with the split: as many pages
      as `split_into_pages` makes, and the last one holding what the summary
      says (zero when there are no photos). */
  lemma PagesInfoMatchesSplit<T>(photos: seq<T>, rows: int, cols: int)
    requires rows * cols > 0
    ensures var info := CalculatePagesInfo(|photos|, rows, cols);
      var pages := Pages(photos, rows, cols);
      && info.Success?
      && info.value.totalPages == |pages|
      && info.value.photosOnLastPage == (if pages == [] then 0 else |pages[|pages| - 1]|)
  {
    var k := rows * cols;
    var pages := Chunks(photos, k);
    ChunkSizes(photos, k);
    if photos == [] {
      DivUnique(k - 1, k, 0);
    } else {
      FlattenChunks(photos, k);
      FullPagesLength(pages, k);
      SummaryOfSplit(|photos|, k, |pages|, |pages[|pages| - 1]|);
    }
  }

  /** The summary arithmetic for `n` photos split into `c` pages whose last
      one holds `last`. */
  lemma SummaryOfSplit(n: int, k: int, c: int, last: int)
    requires k > 0 && c >= 1 && 1 <= last <= k && n == (c - 1) * k + last
    ensures FloorDiv(n + k - 1, k) == c
    ensures (if FloorMod(n, k) == 0 && n > 0 then k else FloorMod(n, k)) == last
  {
    DivUnique(n + k - 1, k, c);
    if last == k {
      DivUnique(n, k, c);
    } else {
      DivUnique(n, k, c - 1);
    }
  }

  /** The page-summary arithmetic in closed form: enough pages for every
      photo and no empty page, `photos_on_last_page` between 1 and the
      capacity when there are photos and 0 when there are none. */
  lemma LastPageCount(count: nat, rows: int, cols: int)
    requires rows * cols > 0
    ensures var info := CalculatePagesInfo(count, rows, cols);
      var k := rows * cols;
      && info.Success?
      && (count == 0 ==> info.value.totalPages == 0 && info.value.photosOnLastPage == 0)
      && (count > 0 ==> 1 <= info.value.photosOnLastPage <= k)
      && (count > 0 ==> (info.value.totalPages - 1) * k + info.value.photosOnLastPage == count)
  {
    var k := rows * cols;
    var photos := seq(count, i => 0);
    var pages := Chunks(photos, k);
    PagesInfoMatchesSplit(photos, rows, cols);
    ChunkSizes(photos, k);
    if count > 0 {
      FlattenChunks(photos, k);
      FullPagesLength(pages, k);
    }
  }

  /** The photos on a split whose pages are all full but the last. */
  lemma {:induction false} FullPagesLength<T>(pages: seq<seq<T>>, k: nat)
    requires pages != []
    requires forall j :: 0 <= j < |pages| - 1 ==> |pages[j]| == k
    ensures |Flatten(pages)| == (|pages| - 1) * k + |pages[|pages| - 1]|
    decreases |pages|
  {
    if |pages| > 1 {
      var n := |pages| - 1;
      FullPagesLength(pages[1..], k);
      assert pages[1..][n - 1] == pages[n];
      assert |Flatten(pages)| == k + |Flatten(pages[1..])|;
      assert (n - 1) * k + k == n * k;
    }
  }
}
