/**
 * The /gallery endpoint of backend/app.py: the output directory is listed,
 * only .jpg/.jpeg/.png names are kept (whatever their case), the records
 * are sorted by creation time (oldest first iff `sort` lowers to "asc",
 * newest first otherwise, ties in listing order as Python's stable sort
 * keeps them), and the creation time is dropped before the list is sent.
 *
 * The file system is the parameter `listing`: os.listdir's names in its
 * order with os.path.getctime's value for each, no directory at all, or a
 * listing that raised.
 */
module Gallery {

  /** One name os.listdir returned, with its creation time. */
  datatype Entry = Entry(filename: string, createdAt: real)

  /** What the output directory looks like when the endpoint runs. */
  datatype Listing =
    | NoDirectory
    | Entries(entries: seq<Entry>)
    | Unreadable

  /** The dictionary appended to `images` while listing. */
  datatype Record = Record(filename: string, url: string, createdAt: real)

  /** What the client receives for one image. */
  datatype GalleryImage = GalleryImage(filename: string, url: string)

  datatype GalleryResponse =
    | Images(images: seq<GalleryImage>)
    | ServerError(status: int)

  // ---------------------------------------------------------------- names

  function LowerChar(c: char): char
  {
    if 'A' <= c <= 'Z' then (c as int + 32) as char else c
  }

  /** str.lower() on the characters that matter here (see README). */
  function AsciiLower(s: string): (r: string)
    ensures |r| == |s|
    ensures forall i :: 0 <= i < |s| ==> r[i] == LowerChar(s[i])
    decreases |s|
  {
    if |s| == 0 then [] else [LowerChar(s[0])] + AsciiLower(s[1..])
  }

  /** Lowering twice is lowering once. */
  lemma AsciiLowerIdempotent(s: string)
    ensures AsciiLower(AsciiLower(s)) == AsciiLower(s)
  {
    var once := AsciiLower(s);
    var twice := AsciiLower(once);
    assert forall i :: 0 <= i < |s| ==> twice[i] == once[i];
  }

  predicate EndsWith(s: string, suffix: string)
  {
    |suffix| <= |s| && s[|s| - |suffix|..] == suffix
  }

  /** `filename.lower().endswith(('.jpg', '.jpeg', '.png'))`. */
  predicate IsImageName(name: string)
  {
    var lower := AsciiLower(name);
    EndsWith(lower, ".jpg") || EndsWith(lower, ".jpeg") || EndsWith(lower, ".png")
  }

  /** The test ignores case: a name and its lowered form are kept alike. */
  lemma ImageNameIgnoresCase(name: string)
    ensures IsImageName(name) <==> IsImageName(AsciiLower(name))
  {
    AsciiLowerIdempotent(name);
  }

  /** An upper-case extension is kept. */
  lemma UpperCaseExtensionIsImage()
    ensures IsImageName("A.JPG")
  {
    var lower := AsciiLower("A.JPG");
    assert lower[1] == '.' && lower[2] == 'j' && lower[3] == 'p' && lower[4] == 'g';
    assert lower[1..] == ".jpg";
  }

  /** Another extension, or the extension without its dot, is not. */
  lemma OtherNamesAreNotImages()
    ensures !IsImageName("a.gif")
    ensures !IsImageName("png")
  {
    var lower := AsciiLower("a.gif");
    assert lower[0] == 'a' && lower[4] == 'f';
    assert lower[1..][3] == 'f' && lower[2..][2] == 'f';
    assert |AsciiLower("png")| == 3;
  }

  /** `sort.lower() == "asc"`: every other value, the default "desc" included, sorts newest first. */
  predicate IsAscending(sort: string)
  {
    AsciiLower(sort) == "asc"
  }

  lemma SortParameterExamples()
    ensures IsAscending("asc") && IsAscending("ASC") && IsAscending("Asc")
    ensures !IsAscending("desc") && !IsAscending("") && !IsAscending("ascending") && !IsAscending(" asc")
  {
    assert AsciiLower("ASC") == "asc";
    assert AsciiLower("Asc") == "asc";
    assert AsciiLower("desc")[0] == 'd';
    assert AsciiLower(" asc")[0] == ' ';
  }

  // ---------------------------------------------------------------- listing

  function RecordOf(e: Entry): Record
  {
    Record(e.filename, "/download/" + e.filename, e.createdAt)
  }

  /** The records the listing loop appends, in listing order. */
  function FilterImages(es: seq<Entry>): (r: seq<Record>)
    ensures |r| <= |es|
    ensures forall i :: 0 <= i < |r| ==> IsImageName(r[i].filename) && r[i].url == "/download/" + r[i].filename
    decreases |es|
  {
    if |es| == 0 then []
    else
      var last := es[|es| - 1];
      FilterImages(es[..|es| - 1]) + (if IsImageName(last.filename) then [RecordOf(last)] else [])
  }

  /** A record is listed exactly when it comes from an image entry of the listing. */
  lemma {:induction false} FilterImagesKeepsExactlyImages(es: seq<Entry>, e: Entry)
    ensures RecordOf(e) in FilterImages(es) <==> e in es && IsImageName(e.filename)
    decreases |es|
  {
    if |es| > 0 {
      var init := es[..|es| - 1];
      var last := es[|es| - 1];
      FilterImagesKeepsExactlyImages(init, e);
      assert es == init + [last];
      assert e in es <==> e in init || e == last;
      if RecordOf(e) == RecordOf(last) {
        assert e == last;
      }
    }
  }

  /** The listing loop. */
  method ListImages(es: seq<Entry>) returns (images: seq<Record>)
    ensures images == FilterImages(es)
  {
    images := [];
    var i := 0;
    while i < |es|
      invariant 0 <= i <= |es|
      invariant images == FilterImages(es[..i])
    {
      var entry := es[i];
      assert FilterImages(es[..i + 1])
             == FilterImages(es[..i]) + (if IsImageName(entry.filename) then [RecordOf(entry)] else []) by {
        assert es[..i + 1][..i] == es[..i];
        assert es[..i + 1][i] == entry;
      }
      if IsImageName(entry.filename) {
        images := images + [RecordOf(entry)];
      }
      i := i + 1;
    }
    assert es[..|es|] == es;
  }

  // ---------------------------------------------------------------- sorting

  /** `a` may stand before `b`: non-decreasing times when ascending, non-increasing otherwise. */
  predicate Before(a: real, b: real, ascending: bool)
  {
    if ascending then a <= b else a >= b
  }

  predicate Sorted(s: seq<Record>, ascending: bool)
  {
    forall i, j :: 0 <= i < j < |s| ==> Before(s[i].createdAt, s[j].createdAt, ascending)
  }

  /** Puts `x` ahead of the first record it may stand before, so it stays ahead of records with its own time. */
  function Insert(x: Record, s: seq<Record>, ascending: bool): (r: seq<Record>)
    ensures |r| == |s| + 1
    decreases |s|
  {
    if |s| == 0 then [x]
    else if Before(x.createdAt, s[0].createdAt, ascending) then [x] + s
    else [s[0]] + Insert(x, s[1..], ascending)
  }

  /** list.sort(key=created_at, reverse=not ascending): a stable sort, given here as insertion sort. */
  function SortByCreation(s: seq<Record>, ascending: bool): (r: seq<Record>)
    ensures |r| == |s|
    decreases |s|
  {
    if |s| == 0 then [] else Insert(s[0], SortByCreation(s[1..], ascending), ascending)
  }

  lemma MultisetOfCons(s: seq<Record>)
    requires |s| > 0
    ensures multiset(s) == multiset(s[1..]) + multiset{s[0]}
  {
    assert s == [s[0]] + s[1..];
  }

  lemma {:induction false} InsertPermutes(x: Record, s: seq<Record>, ascending: bool)
    ensures multiset(Insert(x, s, ascending)) == multiset(s) + multiset{x}
    decreases |s|
  {
    if |s| > 0 && !Before(x.createdAt, s[0].createdAt, ascending) {
      InsertPermutes(x, s[1..], ascending);
      MultisetOfCons(s);
    }
  }

  lemma {:induction false} InsertSorted(x: Record, s: seq<Record>, ascending: bool)
    requires Sorted(s, ascending)
    ensures Sorted(Insert(x, s, ascending), ascending)
    decreases |s|
  {
    if |s| == 0 {
    } else if Before(x.createdAt, s[0].createdAt, ascending) {
      forall j | 0 <= j < |s|
        ensures Before(x.createdAt, s[j].createdAt, ascending)
      {
        if j > 0 {
          assert Before(s[0].createdAt, s[j].createdAt, ascending);
        }
      }
      ConsSorted(x, s, ascending);
    } else {
      InsertSorted(x, s[1..], ascending);
      SortedHeadLeads(s, ascending);
      InsertKeepsLead(s[0], x, s[1..], ascending);
      ConsSorted(s[0], Insert(x, s[1..], ascending), ascending);
    }
  }

  /** `b` may stand before every record of `s`. */
  predicate Leads(b: Record, s: seq<Record>, ascending: bool)
  {
    forall j :: 0 <= j < |s| ==> Before(b.createdAt, s[j].createdAt, ascending)
  }

  lemma ConsSorted(b: Record, s: seq<Record>, ascending: bool)
    requires Leads(b, s, ascending) && Sorted(s, ascending)
    ensures Sorted([b] + s, ascending)
  {
    var r := [b] + s;
    forall i, j | 0 <= i < j < |r|
      ensures Before(r[i].createdAt, r[j].createdAt, ascending)
    {
      if i == 0 {
        assert r[j] == s[j - 1];
      } else {
        assert r[i] == s[i - 1] && r[j] == s[j - 1];
      }
    }
  }

  lemma SortedHeadLeads(s: seq<Record>, ascending: bool)
    requires |s| > 0 && Sorted(s, ascending)
    ensures Leads(s[0], s[1..], ascending) && Sorted(s[1..], ascending)
  {
    forall j | 0 <= j < |s[1..]|
      ensures Before(s[0].createdAt, s[1..][j].createdAt, ascending)
    {
      assert s[1..][j] == s[j + 1];
    }
  }

  lemma {:induction false} InsertKeepsLead(b: Record, x: Record, s: seq<Record>, ascending: bool)
    requires Leads(b, s, ascending) && Before(b.createdAt, x.createdAt, ascending)
    ensures Leads(b, Insert(x, s, ascending), ascending)
    decreases |s|
  {
    if |s| > 0 && !Before(x.createdAt, s[0].createdAt, ascending) {
      assert Leads(b, s[1..], ascending);
      InsertKeepsLead(b, x, s[1..], ascending);
      var r := [s[0]] + Insert(x, s[1..], ascending);
      assert forall j :: 1 <= j < |r| ==> r[j] == Insert(x, s[1..], ascending)[j - 1];
    }
  }

  /** The sort orders by creation time. */
  lemma {:induction false} SortByCreationSorts(s: seq<Record>, ascending: bool)
    ensures Sorted(SortByCreation(s, ascending), ascending)
    decreases |s|
  {
    if |s| > 0 {
      SortByCreationSorts(s[1..], ascending);
      InsertSorted(s[0], SortByCreation(s[1..], ascending), ascending);
    }
  }

  /** The sort neither loses nor invents a record. */
  lemma {:induction false} SortByCreationPermutes(s: seq<Record>, ascending: bool)
    ensures multiset(SortByCreation(s, ascending)) == multiset(s)
    decreases |s|
  {
    if |s| > 0 {
      SortByCreationPermutes(s[1..], ascending);
      InsertPermutes(s[0], SortByCreation(s[1..], ascending), ascending);
      MultisetOfCons(s);
    }
  }

  /** The records created at time `t`, in their order. */
  function CreatedAt(s: seq<Record>, t: real): (r: seq<Record>)
    ensures forall i :: 0 <= i < |r| ==> r[i].createdAt == t
    decreases |s|
  {
    if |s| == 0 then []
    else (if s[0].createdAt == t then [s[0]] else []) + CreatedAt(s[1..], t)
  }

  lemma {:induction false} InsertKeepsTies(x: Record, s: seq<Record>, ascending: bool, t: real)
    ensures CreatedAt(Insert(x, s, ascending), t)
            == (if x.createdAt == t then [x] else []) + CreatedAt(s, t)
    decreases |s|
  {
    if |s| == 0 {
    } else if Before(x.createdAt, s[0].createdAt, ascending) {
      var r := [x] + s;
      assert r[0] == x && r[1..] == s;
    } else {
      InsertKeepsTies(x, s[1..], ascending, t);
      TiesBehindHead(x, s, ascending, t);
    }
  }

  /** When `x` goes behind the head of `s`, the head has another time than `x`'s. */
  lemma TiesBehindHead(x: Record, s: seq<Record>, ascending: bool, t: real)
    requires |s| > 0 && !Before(x.createdAt, s[0].createdAt, ascending)
    requires CreatedAt(Insert(x, s[1..], ascending), t)
             == (if x.createdAt == t then [x] else []) + CreatedAt(s[1..], t)
    ensures CreatedAt(Insert(x, s, ascending), t)
            == (if x.createdAt == t then [x] else []) + CreatedAt(s, t)
  {
    var r := [s[0]] + Insert(x, s[1..], ascending);
    assert r[0] == s[0] && r[1..] == Insert(x, s[1..], ascending);
    if x.createdAt == t {
      assert s[0].createdAt != t;
    }
  }

  /** Stability: records created at the same time keep their listing order. */
  lemma {:induction false} SortByCreationIsStable(s: seq<Record>, ascending: bool, t: real)
    ensures CreatedAt(SortByCreation(s, ascending), t) == CreatedAt(s, t)
    decreases |s|
  {
    if |s| > 0 {
      SortByCreationIsStable(s[1..], ascending, t);
      InsertKeepsTies(s[0], SortByCreation(s[1..], ascending), ascending, t);
    }
  }

  lemma {:induction false} CreatedAtIsSubsequence(s: seq<Record>, t: real, x: Record)
    requires x in CreatedAt(s, t)
    ensures x in s
    decreases |s|
  {
    if x != s[0] {
      CreatedAtIsSubsequence(s[1..], t, x);
    }
  }

  lemma HasOwnTime(s: seq<Record>)
    requires |s| > 0
    ensures CreatedAt(s, s[0].createdAt) != []
  {
    assert CreatedAt(s, s[0].createdAt)[0] == s[0];
  }

  /** The first record of a sorted sequence is one with the leading time. */
  lemma HeadLeadsTies(a: seq<Record>, b: seq<Record>, ascending: bool)
    requires |a| > 0 && |b| > 0 && Sorted(b, ascending)
    requires CreatedAt(a, a[0].createdAt) == CreatedAt(b, a[0].createdAt)
    ensures Before(b[0].createdAt, a[0].createdAt, ascending)
  {
    var t := a[0].createdAt;
    assert CreatedAt(a, t)[0] == a[0];
    CreatedAtIsSubsequence(b, t, a[0]);
    var k :| 0 <= k < |b| && b[k] == a[0];
    if k > 0 {
      assert Before(b[0].createdAt, b[k].createdAt, ascending);
    }
  }

  /** Two sorted sequences with the same ties start alike and continue with the same ties. */
  lemma HeadsAgree(a: seq<Record>, b: seq<Record>, ascending: bool)
    requires |a| > 0 && |b| > 0 && Sorted(a, ascending) && Sorted(b, ascending)
    requires forall t :: CreatedAt(a, t) == CreatedAt(b, t)
    ensures a[0] == b[0]
    ensures forall u :: CreatedAt(a[1..], u) == CreatedAt(b[1..], u)
  {
    HeadLeadsTies(a, b, ascending);
    HeadLeadsTies(b, a, ascending);
    var t := a[0].createdAt;
    assert b[0].createdAt == t;
    assert CreatedAt(a, t) == [a[0]] + CreatedAt(a[1..], t);
    assert CreatedAt(b, t) == [b[0]] + CreatedAt(b[1..], t);
    assert CreatedAt(a, t) == CreatedAt(b, t);
    assert a[0] == CreatedAt(a, t)[0] == CreatedAt(b, t)[0] == b[0];
    forall u
      ensures CreatedAt(a[1..], u) == CreatedAt(b[1..], u)
    {
      if u == t {
        assert CreatedAt(a, u)[1..] == CreatedAt(a[1..], u);
        assert CreatedAt(b, u)[1..] == CreatedAt(b[1..], u);
      } else {
        assert CreatedAt(a, u) == CreatedAt(a[1..], u);
        assert CreatedAt(b, u) == CreatedAt(b[1..], u);
      }
    }
  }

  /**
   * A stable sort has only one possible result: two sorted sequences with
   * the same records at every time, in the same order, are equal.
   */
  lemma {:induction false} StableOrderIsUnique(a: seq<Record>, b: seq<Record>, ascending: bool)
    requires Sorted(a, ascending) && Sorted(b, ascending)
    requires forall t :: CreatedAt(a, t) == CreatedAt(b, t)
    ensures a == b
    decreases |a| + |b|
  {
    if |a| == 0 && |b| > 0 {
      HasOwnTime(b);
      assert false;
    } else if |a| > 0 && |b| == 0 {
      HasOwnTime(a);
      assert false;
    } else if |a| > 0 {
      HeadsAgree(a, b, ascending);
      assert Sorted(a[1..], ascending) && Sorted(b[1..], ascending);
      StableOrderIsUnique(a[1..], b[1..], ascending);
      assert a == [a[0]] + a[1..] && b == [b[0]] + b[1..];
    }
  }

  // ---------------------------------------------------------------- response

  function Publish(r: Record): GalleryImage
  {
    GalleryImage(r.filename, r.url)
  }

  /** The loop that deletes `created_at` from every record. */
  method StripCreation(records: seq<Record>) returns (images: seq<GalleryImage>)
    ensures |images| == |records|
    ensures forall i :: 0 <= i < |records| ==> images[i] == Publish(records[i])
  {
    images := [];
    var i := 0;
    while i < |records|
      invariant 0 <= i <= |records|
      invariant |images| == i
      invariant forall k :: 0 <= k < i ==> images[k] == Publish(records[k])
    {
      images := images + [Publish(records[i])];
      i := i + 1;
    }
  }

  /** The images listed for `records`, in their order. */
  function PublishAll(records: seq<Record>): (r: seq<GalleryImage>)
    ensures |r| == |records|
    ensures forall i :: 0 <= i < |records| ==> r[i] == Publish(records[i])
    decreases |records|
  {
    if |records| == 0 then [] else [Publish(records[0])] + PublishAll(records[1..])
  }

  /** The response of get_gallery. */
  function GalleryOf(listing: Listing, sort: string): (r: GalleryResponse)
    ensures r.ServerError? <==> listing.Unreadable?
    ensures r.ServerError? ==> r.status == 500
    ensures listing.NoDirectory? ==> r == Images([])
  {
    match listing
    case NoDirectory => Images([])
    case Unreadable => ServerError(500)
    case Entries(es) => Images(PublishAll(SortByCreation(FilterImages(es), IsAscending(sort))))
  }

  method GetGallery(listing: Listing, sort: string) returns (response: GalleryResponse)
    ensures response == GalleryOf(listing, sort)
  {
    match listing {
      case NoDirectory =>
        return Images([]);
      case Unreadable =>
        return ServerError(500);
      case Entries(es) =>
        var records := ListImages(es);
        records := SortByCreation(records, IsAscending(sort));
        var images := StripCreation(records);
        assert images == PublishAll(records);
        return Images(images);
    }
  }

  /** The gallery lists exactly the image files of the directory, each with its download URL. */
  lemma GalleryListsImageFiles(es: seq<Entry>, sort: string, e: Entry)
    ensures Publish(RecordOf(e)) in GalleryOf(Entries(es), sort).images
            <==> exists f :: f in es && f.filename == e.filename && IsImageName(f.filename)
  {
    if Publish(RecordOf(e)) in GalleryOf(Entries(es), sort).images {
      ListedComesFromImage(es, sort, e);
    }
    if f :| f in es && f.filename == e.filename && IsImageName(f.filename) {
      ImageIsListed(es, sort, f);
      assert Publish(RecordOf(f)) == Publish(RecordOf(e));
    }
  }

  lemma ListedComesFromImage(es: seq<Entry>, sort: string, e: Entry)
    requires Publish(RecordOf(e)) in GalleryOf(Entries(es), sort).images
    ensures exists f :: f in es && f.filename == e.filename && IsImageName(f.filename)
  {
    var filtered := FilterImages(es);
    var sorted := SortByCreation(filtered, IsAscending(sort));
    var images := GalleryOf(Entries(es), sort).images;
    assert images == PublishAll(sorted);
    var i :| 0 <= i < |images| && images[i] == Publish(RecordOf(e));
    assert Publish(sorted[i]) == Publish(RecordOf(e));
    SortByCreationPermutes(filtered, IsAscending(sort));
    assert sorted[i] in multiset(filtered);
    var j :| 0 <= j < |filtered| && filtered[j] == sorted[i];
    var f := Entry(e.filename, sorted[i].createdAt);
    assert RecordOf(f) == filtered[j];
    FilterImagesKeepsExactlyImages(es, f);
  }

  lemma ImageIsListed(es: seq<Entry>, sort: string, f: Entry)
    requires f in es && IsImageName(f.filename)
    ensures Publish(RecordOf(f)) in GalleryOf(Entries(es), sort).images
  {
    var filtered := FilterImages(es);
    var sorted := SortByCreation(filtered, IsAscending(sort));
    var images := GalleryOf(Entries(es), sort).images;
    assert images == PublishAll(sorted);
    FilterImagesKeepsExactlyImages(es, f);
    SortByCreationPermutes(filtered, IsAscending(sort));
    assert RecordOf(f) in multiset(sorted);
    var i :| 0 <= i < |sorted| && sorted[i] == RecordOf(f);
    assert images[i] == Publish(RecordOf(f));
  }

  /**
   * The gallery is THE creation-time order of the listed image records:
   * any order of them that is sorted by time and keeps equal times in
   * listing order is the one the client receives, stripped of the times.
   */
  lemma GalleryIsTheStableCreationOrder(es: seq<Entry>, sort: string, records: seq<Record>)
    requires Sorted(records, IsAscending(sort))
    requires forall t :: CreatedAt(records, t) == CreatedAt(FilterImages(es), t)
    ensures GalleryOf(Entries(es), sort).images == PublishAll(records)
  {
    var sorted := SortByCreation(FilterImages(es), IsAscending(sort));
    SortByCreationSorts(FilterImages(es), IsAscending(sort));
    forall t
      ensures CreatedAt(sorted, t) == CreatedAt(records, t)
    {
      SortByCreationIsStable(FilterImages(es), IsAscending(sort), t);
    }
    StableOrderIsUnique(sorted, records, IsAscending(sort));
  }

  /** The gallery is the listed image records in creation order, ties in listing order, creation times dropped. */
  lemma GalleryIsCreationOrdered(es: seq<Entry>, sort: string)
    ensures exists records ::
              Sorted(records, IsAscending(sort))
              && multiset(records) == multiset(FilterImages(es))
              && (forall t :: CreatedAt(records, t) == CreatedAt(FilterImages(es), t))
              && GalleryOf(Entries(es), sort).images == PublishAll(records)
  {
    var records := SortByCreation(FilterImages(es), IsAscending(sort));
    SortByCreationSorts(FilterImages(es), IsAscending(sort));
    SortByCreationPermutes(FilterImages(es), IsAscending(sort));
    forall t
      ensures CreatedAt(records, t) == CreatedAt(FilterImages(es), t)
    {
      SortByCreationIsStable(FilterImages(es), IsAscending(sort), t);
    }
  }
}
