/**
 * What the three gallery panels (image, video, paper) share: the id a panel registers under,
 * derived from its `id` prop or its media url, and the lookup of its caption in the content
 * table. Each panel component defines the same `deriveId`; here it is defined once.
 */
module Panels {
  import opened Wrappers
  import opened Text

  /** `s.split(c)`: the pieces between the occurrences of `c`, left to right. */
  function Split(s: string, c: char): (parts: seq<string>)
    ensures |parts| >= 1
    decreases |s|
  {
    if s == [] then [[]]
    else
      var rest := Split(s[1..], c);
      if s[0] == c then [[]] + rest
      else [[s[0]] + rest[0]] + rest[1..]
  }

  /** No piece of a split contains the separator. */
  lemma {:induction false} SplitPiecesFree(s: string, c: char)
    ensures forall i :: 0 <= i < |Split(s, c)| ==> c !in Split(s, c)[i]
    decreases |s|
  {
    if s != [] {
      var parts, rest := Split(s, c), Split(s[1..], c);
      SplitPiecesFree(s[1..], c);
      if s[0] != c {
        assert forall i :: 1 <= i < |parts| ==> parts[i] == rest[i];
        assert forall x :: x in [s[0]] + rest[0] ==> x == s[0] || x in rest[0];
      }
    }
  }

  /** Joining the pieces of a split gives back the string. */
  lemma {:induction false} SplitJoins(s: string, c: char)
    ensures Join(Split(s, c), c) == s
    decreases |s|
  {
    if s != [] {
      var rest := Split(s[1..], c);
      SplitJoins(s[1..], c);
      if s[0] == c {
        JoinCons([], rest, c);
      } else if |rest| > 1 {
        JoinCons(rest[0], rest[1..], c);
        assert rest == [rest[0]] + rest[1..];
        JoinCons([s[0]] + rest[0], rest[1..], c);
      }
    }
  }

  /** `parts.join(c)`. */
  function Join(parts: seq<string>, c: char): string
    requires |parts| >= 1
  {
    if |parts| == 1 then parts[0] else parts[0] + [c] + Join(parts[1..], c)
  }

  /** Splitting is the only way to cut `s` at separators: any pieces free of `c` that join to `s` are its split. */
  lemma {:induction false} SplitUnique(s: string, c: char, parts: seq<string>)
    requires |parts| >= 1 && Join(parts, c) == s
    requires forall i :: 0 <= i < |parts| ==> c !in parts[i]
    ensures Split(s, c) == parts
    decreases |s|
  {
    if parts[0] == [] {
      if |parts| > 1 {
        assert s == [c] + Join(parts[1..], c);
        assert s[1..] == Join(parts[1..], c);
        SplitUnique(s[1..], c, parts[1..]);
        assert parts == [[]] + parts[1..];
      }
    } else {
      var head := parts[0];
      var shorter := [head[1..]] + parts[1..];
      JoinTail(parts, c);
      assert head[0] in head;
      assert forall i :: 1 <= i < |shorter| ==> shorter[i] == parts[i];
      assert forall i :: 0 <= i < |shorter| ==> c !in shorter[i] by {
        forall i | 0 <= i < |shorter|
          ensures c !in shorter[i]
        {
          if i == 0 {
            assert forall x :: x in head[1..] ==> x in head;
          }
        }
      }
      SplitUnique(s[1..], c, shorter);
      assert shorter[1..] == parts[1..];
      assert [head[0]] + head[1..] == head;
      assert [[s[0]] + head[1..]] + parts[1..] == parts;
    }
  }

  /** Dropping the first character of a joined string whose first piece is not empty. */
  lemma JoinTail(parts: seq<string>, c: char)
    requires |parts| >= 1 && parts[0] != []
    ensures var s := Join(parts, c);
      s != [] && s[0] == parts[0][0] && s[1..] == Join([parts[0][1..]] + parts[1..], c)
  {
    var shorter := [parts[0][1..]] + parts[1..];
    assert shorter[1..] == parts[1..];
  }

  /** The first piece of a split is the longest prefix free of the separator. */
  lemma {:induction false} FirstPiece(s: string, c: char)
    ensures var p := Split(s, c)[0];
      |p| <= |s| && p == s[..|p|] && (|p| < |s| ==> s[|p|] == c)
    decreases |s|
  {
    if s != [] && s[0] != c {
      FirstPiece(s[1..], c);
    }
  }

  /** The last piece of a split is the longest suffix free of the separator. */
  lemma {:induction false} LastPiece(s: string, c: char)
    ensures var parts := Split(s, c);
      var p := parts[|parts| - 1];
      |p| <= |s| && p == s[|s| - |p|..] && (|p| < |s| ==> s[|s| - |p| - 1] == c)
    decreases |s|
  {
    if s != [] {
      var parts, rest := Split(s, c), Split(s[1..], c);
      LastPiece(s[1..], c);
      var q := rest[|rest| - 1];
      if s[0] == c || |rest| > 1 {
        assert parts[|parts| - 1] == q;
        assert s[1..][|s| - 1 - |q|..] == s[|s| - |q|..];
        if |q| < |s| - 1 {
          assert s[1..][|s| - 1 - |q| - 1] == s[|s| - |q| - 1];
        } else if s[0] != c {
          SplitJoins(s[1..], c);
          LastPieceShorter(rest, c);
          assert false;
        }
      } else {
        SplitJoins(s[1..], c);
        assert rest[0] == s[1..];
        assert [s[0]] + s[1..] == s;
      }
    }
  }

  /** With two pieces or more, the last piece is shorter than the joined string. */
  lemma {:induction false} LastPieceShorter(parts: seq<string>, c: char)
    requires |parts| > 1
    ensures |parts[|parts| - 1]| < |Join(parts, c)|
    decreases |parts|
  {
    if |parts| > 2 {
      LastPieceShorter(parts[1..], c);
    }
  }

  /** `url.split("/").pop()`: the file name at the end of a url path. */
  function FileName(url: string): string
  {
    var parts := Split(url, '/');
    parts[|parts| - 1]
  }

  /** `fname.split(".")[0]`: the file name up to its first dot. */
  function BaseName(fname: string): string
  {
    Split(fname, '.')[0]
  }

  /**
   * `deriveId`: the `id` prop when it is truthy; otherwise the base name of the url's file
   * name; and the whole url when that file name is empty.
   */
  function DeriveId(id: Option<string>, url: string): string
  {
    if Truthy(id) then id.value
    else
      var fname := FileName(url);
      if fname != "" then BaseName(fname) else url
  }

  /** The file name is the part of the url after its last `/`, or all of it when there is none. */
  lemma FileNameIsLastSegment(url: string)
    ensures var f := FileName(url);
      '/' !in f && |f| <= |url| && f == url[|url| - |f|..]
      && (|f| < |url| ==> url[|url| - |f| - 1] == '/')
  {
    LastPiece(url, '/');
    SplitPiecesFree(url, '/');
  }

  /** The base name is the part of the file name before its first `.`, or all of it when there is none. */
  lemma BaseNameIsFirstSegment(fname: string)
    ensures var b := BaseName(fname);
      '.' !in b && |b| <= |fname| && b == fname[..|b|] && (|b| < |fname| ==> fname[|b|] == '.')
  {
    FirstPiece(fname, '.');
    SplitPiecesFree(fname, '.');
  }

  /** A url whose path ends in `/` has an empty file name, so without an `id` the url itself is the id. */
  lemma TrailingSlashKeepsUrl(id: Option<string>, url: string)
    requires !Truthy(id) && url != [] && url[|url| - 1] == '/'
    ensures DeriveId(id, url) == url
  {
    FileNameIsLastSegment(url);
  }

  /** Joining one more piece in front. */
  lemma JoinCons(p: string, rest: seq<string>, c: char)
    requires |rest| >= 1
    ensures Join([p] + rest, c) == p + [c] + Join(rest, c)
  {
    assert ([p] + rest)[1..] == rest;
  }

  /** The file name of a url is what follows its last `/`. */
  lemma {:induction false} FileNameAfterSlash(dir: string, f: string)
    requires '/' !in f
    ensures FileName(dir + "/" + f) == f
  {
    var s := dir + "/" + f;
    var p := FileName(s);
    FileNameIsLastSegment(s);
    assert s[|s| - |f| - 1] == '/';
    assert f == s[|s| - |f|..];
  }

  /** The base name of a file name is what precedes its first `.`. */
  lemma {:induction false} BaseNameBeforeDot(b: string, ext: string)
    requires '.' !in b
    ensures BaseName(b + "." + ext) == b
  {
    var s := b + "." + ext;
    var p := BaseName(s);
    BaseNameIsFirstSegment(s);
    assert s[|b|] == '.';
    assert b == s[..|b|];
  }

  lemma GalleryFileName(url: string)
    requires url == "/media/images/Butterfly.jpg"
    ensures FileName(url) == "Butterfly.jpg"
  {
    assert url == "/media/images" + "/" + "Butterfly.jpg";
    FileNameAfterSlash("/media/images", "Butterfly.jpg");
  }

  lemma GalleryBaseName(fname: string)
    requires fname == "Butterfly.jpg"
    ensures BaseName(fname) == "Butterfly"
  {
    assert fname == "Butterfly" + "." + "jpg";
    BaseNameBeforeDot("Butterfly", "jpg");
  }

  /** The images of the gallery are named by their file's base name; a falsy `id` counts as none. */
  lemma DeriveIdExample(url: string)
    requires url == "/media/images/Butterfly.jpg"
    ensures DeriveId(None, url) == "Butterfly"
    ensures DeriveId(Some(""), url) == "Butterfly"
    ensures DeriveId(Some("lab"), url) == "lab"
  {
    GalleryFileName(url);
    GalleryBaseName(FileName(url));
  }

  /** A file name that starts with a dot has an empty base name: without an `id` the derived id is "". */
  lemma HiddenFileGivesEmptyId(url: string)
    requires FileName(url) != "" && FileName(url)[0] == '.'
    ensures DeriveId(None, url) == ""
  {
    BaseNameIsFirstSegment(FileName(url));
  }

  /** `contentKey = id || deriveId()` is always the same key as the panel's own id. */
  function ContentKey(id: Option<string>, url: string): (k: string)
    ensures k == DeriveId(id, url)
  {
    if Truthy(id) then id.value else DeriveId(id, url)
  }

  /** One entry of the caption table. */
  datatype Content = Content(title: string, description: string)

  /** `ImageContents[key] || ImageContents.default`; the table always has a `default` entry. */
  function LookupContent(contents: map<string, Content>, key: string): (c: Content)
    requires "default" in contents
    ensures key in contents ==> c == contents[key]
    ensures key !in contents ==> c == contents["default"]
  {
    if key in contents then contents[key] else contents["default"]
  }

  /** A panel always finds a caption, and one of its own if the table has its id. */
  lemma CaptionFound(contents: map<string, Content>, id: Option<string>, url: string)
    requires "default" in contents
    ensures LookupContent(contents, ContentKey(id, url)) in contents.Values
    ensures DeriveId(id, url) in contents ==>
      LookupContent(contents, ContentKey(id, url)) == contents[DeriveId(id, url)]
  {
  }
}
