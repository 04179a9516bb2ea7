/** The paged listing of captured images (control_message_dispatcher.cpp). */
module Captures {
  import opened Common

  /** Lexicographic order of file names. */
  predicate AtMost(a: string, b: string) {
    a == [] || (b != [] && (a[0] < b[0] || (a[0] == b[0] && AtMost(a[1..], b[1..]))))
  }

  lemma {:induction false} AtMostTotal(a: string, b: string)
    ensures AtMost(a, b) || AtMost(b, a)
    ensures AtMost(a, b) && AtMost(b, a) ==> a == b
  {
    if a != [] && b != [] {
      AtMostTotal(a[1..], b[1..]);
      assert a == [a[0]] + a[1..] && b == [b[0]] + b[1..];
    }
  }

  /** The order is that of a dictionary: a name comes before its extensions, and otherwise the
      first character that differs decides. */
  lemma {:induction false} AtMostIff(a: string, b: string, k: nat)
    requires k <= |a| && k <= |b| && a[..k] == b[..k]
    requires k == |a| || k == |b| || a[k] != b[k]
    ensures AtMost(a, b) <==> k == |a| || (k < |b| && a[k] < b[k])
  {
    if k > 0 {
      assert a[..k][0] == a[0] && b[..k][0] == b[0];
      assert a[1..][..k - 1] == a[..k][1..] && b[1..][..k - 1] == b[..k][1..];
      AtMostIff(a[1..], b[1..], k - 1);
    }
  }

  lemma {:induction false} AtMostTransitive(a: string, b: string, c: string)
    requires AtMost(a, b) && AtMost(b, c)
    ensures AtMost(a, c)
  {
    if a != [] && a[0] == b[0] && b[0] == c[0] {
      AtMostTransitive(a[1..], b[1..], c[1..]);
    }
  }

  /** A file whose extension is ".bmp"; a bare ".bmp" has a stem only. */
  predicate IsBmp(name: string) {
    |name| > 4 && name[|name| - 4..] == ".bmp"
  }

  function Stem(name: string): string
    requires IsBmp(name)
  {
    name[..|name| - 4]
  }

  predicate Descending(files: seq<string>) {
    forall i, j :: 0 <= i < j < |files| ==> AtMost(files[j], files[i])
  }

  function Inserted(file: string, files: seq<string>): seq<string> {
    if files == [] || AtMost(files[0], file) then [file] + files
    else [files[0]] + Inserted(file, files[1..])
  }

  /** The .bmp entries of a directory, in descending order. */
  function Listed(directory: seq<string>): seq<string> {
    if directory == [] then []
    else if IsBmp(directory[0]) then Inserted(directory[0], Listed(directory[1..]))
    else Listed(directory[1..])
  }

  lemma {:induction false} InsertedMultiset(file: string, files: seq<string>)
    ensures multiset(Inserted(file, files)) == multiset(files) + multiset{file}
  {
    if files != [] {
      assert files == [files[0]] + files[1..];
      InsertedMultiset(file, files[1..]);
    }
  }

  lemma {:induction false} InsertedDescending(file: string, files: seq<string>)
    requires Descending(files)
    ensures Descending(Inserted(file, files))
  {
    if files != [] {
      var rest := Inserted(file, files[1..]);
      if AtMost(files[0], file) {
        forall j | 0 < j < |files|
          ensures AtMost(files[j], file)
        {
          AtMostTransitive(files[j], files[0], file);
        }
      } else {
        InsertedDescending(file, files[1..]);
        InsertedMultiset(file, files[1..]);
        AtMostTotal(files[0], file);
        hide Inserted;
        forall j | 0 <= j < |rest|
          ensures AtMost(rest[j], files[0])
        {
          assert rest[j] in multiset(rest);
          assert rest[j] == file || rest[j] in files[1..];
        }
      }
    }
  }

  /** The first of a descending sequence is above every member. */
  lemma FirstIsTop(files: seq<string>, x: string)
    requires Descending(files) && x in multiset(files)
    ensures files != [] && AtMost(x, files[0])
  {
    var i :| 0 <= i < |files| && files[i] == x;
    AtMostTotal(x, x);
  }

  lemma WithoutFirst(files: seq<string>)
    requires files != []
    ensures multiset(files[1..]) == multiset(files) - multiset{files[0]}
  {
    assert files == [files[0]] + files[1..];
  }

  lemma TailDescending(files: seq<string>)
    requires files != [] && Descending(files)
    ensures Descending(files[1..])
  {
  }

  /** There is only one way to put names in descending order. */
  lemma {:induction false} DescendingUnique(a: seq<string>, b: seq<string>)
    requires Descending(a) && Descending(b) && multiset(a) == multiset(b)
    ensures a == b
  {
    hide AtMost, Descending;
    assert |a| == |multiset(a)| == |multiset(b)| == |b|;
    if a != [] {
      assert a[0] in multiset(a) && b[0] in multiset(b);
      FirstIsTop(b, a[0]);
      FirstIsTop(a, b[0]);
      AtMostTotal(a[0], b[0]);
      WithoutFirst(a);
      WithoutFirst(b);
      TailDescending(a);
      TailDescending(b);
      DescendingUnique(a[1..], b[1..]);
      assert a == [a[0]] + a[1..] && b == [b[0]] + b[1..];
    }
  }

  function BmpOnly(directory: seq<string>): seq<string> {
    if directory == [] then []
    else if IsBmp(directory[0]) then [directory[0]] + BmpOnly(directory[1..])
    else BmpOnly(directory[1..])
  }

  /** The listing has every .bmp file as often as the directory has it, newest name first. */
  lemma {:induction false} ListedExact(directory: seq<string>)
    ensures Descending(Listed(directory))
    ensures forall i, j :: 0 <= i < j < |Listed(directory)| ==> AtMost(Listed(directory)[j], Listed(directory)[i])
    ensures multiset(Listed(directory)) == multiset(BmpOnly(directory))
  {
    if directory != [] {
      ListedExact(directory[1..]);
      if IsBmp(directory[0]) {
        InsertedDescending(directory[0], Listed(directory[1..]));
        InsertedMultiset(directory[0], Listed(directory[1..]));
      }
    }
  }

  lemma {:induction false} BmpOnlyMembers(directory: seq<string>)
    ensures forall f :: f in BmpOnly(directory) <==> f in directory && IsBmp(f)
  {
    if directory != [] {
      assert directory == [directory[0]] + directory[1..];
      BmpOnlyMembers(directory[1..]);
    }
  }

  lemma ListedMembers(directory: seq<string>)
    ensures forall f :: f in Listed(directory) <==> f in directory && IsBmp(f)
  {
    ListedExact(directory);
    BmpOnlyMembers(directory);
    forall f
      ensures f in Listed(directory) <==> f in BmpOnly(directory)
    {
      assert f in Listed(directory) <==> f in multiset(Listed(directory));
      assert f in BmpOnly(directory) <==> f in multiset(BmpOnly(directory));
    }
  }

  /** A file is listed exactly when it is there and its name is something before ".bmp". */
  lemma ListedNames(directory: seq<string>, f: string)
    ensures f in Listed(directory) <==> f in directory && exists stem: string :: stem != "" && f == stem + ".bmp"
  {
    ListedMembers(directory);
    if IsBmp(f) {
      assert f == f[..|f| - 4] + ".bmp";
    }
    if stem: string :| stem != "" && f == stem + ".bmp" {
      assert f[|f| - 4..] == ".bmp";
    }
  }

  // ---- Pages ----------------------------------------------------------------------------

  /** `capturedAtMs` is 0 for a file whose modification time cannot be read. */
  datatype Info = Info(id: string, filename: string, capturedAtMs: int)

  /** The modification times the file system gives out, by name. */
  type Times = string -> Option<int>

  function CapturedAt(times: Times, file: string): int {
    match times(file)
    case None => 0
    case Some(ms) => ms
  }

  datatype Page = Page(total: nat, hasMore: bool, images: seq<Info>)

  function EffectiveSize(requested: int): (size: int)
    ensures size > 0
  {
    if requested > 0 then requested else 20
  }

  /** The file names on a page. */
  function Names(page: Page): seq<string> {
    seq(|page.images|, i requires 0 <= i < |page.images| => page.images[i].filename)
  }

  /** The part of the listing between two positions, either of which may lie past its end. */
  function Part(files: seq<string>, from: nat, to: nat): seq<string> {
    if from < Min(to, |files|) then files[from..Min(to, |files|)] else []
  }

  lemma PartIsRange(files: seq<string>, from: nat, to: nat)
    requires from <= to
    ensures |Part(files, from, to)| == Max(0, Min(to, |files|) - from)
    ensures forall k :: 0 <= k < |Part(files, from, to)| ==> Part(files, from, to)[k] == files[from + k]
  {
  }

  method SortDescending(directory: seq<string>) returns (files: seq<string>)
    ensures files == Listed(directory)
  {
    files := [];
    var i := |directory|;
    while i > 0
      invariant 0 <= i <= |directory|
      invariant files == Listed(directory[i..])
    {
      i := i - 1;
      assert directory[i..][1..] == directory[i + 1..];
      if IsBmp(directory[i]) {
        files := Inserted(directory[i], files);
      }
    }
  }

  /** A page holds its part of the listing, with ids that are the stems, and announces more
      exactly when the listing goes on past it. Of pages below 0, and of no others, the loop
      begins below the listing. */
  method HandleListCapturedImages(directory: seq<string>, times: Times, requestedSize: int, page: int)
    returns (outcome: Result<Page, Fault>)
    ensures outcome.Failure? <==> page < 0
    ensures page >= 0 ==>
            var response := outcome.value;
            var files, size := Listed(directory), if requestedSize > 0 then requestedSize else 20;
            && response.total == |files|
            && page * size >= 0
            && Names(response) == Part(files, page * size, page * size + size)
            && (response.hasMore <==> Part(files, (page + 1) * size, (page + 1) * size + size) != [])
            && forall i :: 0 <= i < |response.images| ==>
                 && response.images[i].filename == response.images[i].id + ".bmp"
                 && response.images[i].capturedAtMs == CapturedAt(times, response.images[i].filename)
  {
    hide Listed, IsBmp, Descending;
    var size := if requestedSize > 0 then requestedSize else 20;
    var files := SortDescending(directory);
    ListedMembers(directory);
    var total := |files|;
    var start := page * size;
    if page < 0 {
      StartsBelow(page, size);
    } else {
      PageStarts(page, size);
    }
    var images := DescribeFiles(files, times, start, Min(start + size, total));
    if images.Failure? {
      return Failure(images.error);
    }
    return Success(Page(total, start + size < total, images.value));
  }

  method DescribeFiles(files: seq<string>, times: Times, start: int, end: int)
    returns (outcome: Result<seq<Info>, Fault>)
    requires end <= |files| && forall f :: f in files ==> IsBmp(f)
    ensures outcome.Failure? <==> start < 0 && start < end
    ensures outcome.Success? ==>
              && |outcome.value| == Max(0, end - start)
              && forall k :: 0 <= k < |outcome.value| ==>
                   && outcome.value[k].filename == files[start + k]
                   && outcome.value[k].filename == outcome.value[k].id + ".bmp"
                   && outcome.value[k].capturedAtMs ==
                      (if times(files[start + k]).Some? then times(files[start + k]).value else 0)
  {
    var images: seq<Info> := [];
    var i := start;
    while i < end
      invariant start <= i && (i <= end || i == start) && (i == start || start >= 0)
      invariant |images| == i - start
      invariant forall k :: 0 <= k < |images| ==>
                  && images[k].filename == files[start + k] && images[k].filename == images[k].id + ".bmp"
                  && images[k].capturedAtMs == CapturedAt(times, files[start + k])
    {
      if i < 0 {
        return Failure(OutOfBounds);
      }
      assert files[i] in files;
      var info := Info(Stem(files[i]), files[i], 0);
      var mtime := times(files[i]);
      if mtime.Some? {
        info := info.(capturedAtMs := mtime.value);
      }
      images := images + [info];
      i := i + 1;
    }
    return Success(images);
  }

  lemma StartsBelow(page: int, size: nat)
    requires page < 0 && size > 0
    ensures page * size < 0
  {
  }

  lemma PageStarts(page: nat, size: nat)
    ensures page * size >= 0 && (page + 1) * size == page * size + size
  {
  }

  /** What a client sees that asks for page after page while there is more. */
  function PagesFrom(files: seq<string>, size: nat, page: nat): seq<string>
    requires size > 0
    decreases |files| - page * size
  {
    PageStarts(page, size);
    var here := Part(files, page * size, page * size + size);
    if Part(files, (page + 1) * size, (page + 1) * size + size) != [] then here + PagesFrom(files, size, page + 1)
    else here
  }

  lemma {:induction false} PagesFromIsSuffix(files: seq<string>, size: nat, page: nat)
    requires size > 0 && page * size <= |files|
    ensures PagesFrom(files, size, page) == files[page * size..]
    decreases |files| - page * size
  {
    PageStarts(page, size);
    var start := page * size;
    if start + size < |files| {
      PagesFromIsSuffix(files, size, page + 1);
      assert files[start..] == files[start..start + size] + files[start + size..];
    }
  }

  /** The pages from 0 on are the whole listing, with no gap, no overlap and an end. */
  lemma PagesCoverListing(directory: seq<string>, requestedSize: int)
    ensures PagesFrom(Listed(directory), if requestedSize > 0 then requestedSize else 20, 0) == Listed(directory)
  {
    PagesFromIsSuffix(Listed(directory), EffectiveSize(requestedSize), 0);
  }
}
