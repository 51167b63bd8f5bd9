/** The artifact-path and content-type rules of `uploadFileTree` and `getContentType`
    (storage.ts:15-61). The bytes themselves are carried as given; base64 decoding
    and the upload calls are not modelled. */
module Storage {
  import opened Strings

  /** No two slashes in a row. */
  predicate NoDoubleSlash(s: string) {
    forall i :: 0 <= i < |s| - 1 ==> !(s[i] == '/' && s[i + 1] == '/')
  }

  /** `s` with every slash removed: what collapsing must not touch. */
  function Strip(s: string): string {
    if |s| == 0 then "" else (if s[0] == '/' then "" else [s[0]]) + Strip(s[1..])
  }

  function SkipSlashes(s: string): (r: string)
    ensures |r| <= |s| && r == s[|s| - |r|..]
    ensures |r| > 0 ==> r[0] != '/'
    ensures forall i :: 0 <= i < |s| - |r| ==> s[i] == '/'
    ensures Strip(r) == Strip(s)
    decreases |s|
  {
    if |s| > 0 && s[0] == '/' then SkipSlashes(s[1..]) else s
  }

  /** `s.replace(/\/+/g, '/')`: every maximal run of slashes becomes one slash. */
  function Collapse(s: string): (r: string)
    ensures |r| <= |s|
    ensures |s| > 0 ==> |r| > 0 && (r[0] == '/' <==> s[0] == '/')
    decreases |s|
  {
    if |s| == 0 then ""
    else if s[0] == '/' then "/" + Collapse(SkipSlashes(s[1..]))
    else [s[0]] + Collapse(s[1..])
  }

  /** Collapsing leaves no double slash behind. */
  lemma {:induction false} CollapseNoDoubleSlash(s: string)
    ensures NoDoubleSlash(Collapse(s))
    decreases |s|
  {
    if |s| > 0 {
      var rest := if s[0] == '/' then SkipSlashes(s[1..]) else s[1..];
      CollapseNoDoubleSlash(rest);
      ConsNoDoubleSlash(s[0], Collapse(rest));
    }
  }

  lemma ConsNoDoubleSlash(x: char, c: string)
    requires NoDoubleSlash(c)
    requires x == '/' && |c| > 0 ==> c[0] != '/'
    ensures NoDoubleSlash([x] + c)
  {
    var s := [x] + c;
    forall i | 0 <= i < |s| - 1
      ensures !(s[i] == '/' && s[i + 1] == '/')
    {
      if i > 0 {
        assert s[i] == c[i - 1] && s[i + 1] == c[i];
      }
    }
  }

  /** Collapsing removes slashes only: every other character stays, in order. */
  lemma {:induction false} CollapseKeepsText(s: string)
    ensures Strip(Collapse(s)) == Strip(s)
    decreases |s|
  {
    if |s| > 0 {
      if s[0] == '/' {
        var rest := SkipSlashes(s[1..]);
        CollapseKeepsText(rest);
        StripAppend("/", Collapse(rest));
        assert Strip(s) == Strip(s[1..]);
      } else {
        CollapseKeepsText(s[1..]);
        StripAppend([s[0]], Collapse(s[1..]));
      }
    }
  }

  /** The strings collapsing leaves alone are exactly those without a double slash. */
  lemma {:induction false} CollapseFixedPoints(s: string)
    ensures Collapse(s) == s <==> NoDoubleSlash(s)
    decreases |s|
  {
    CollapseNoDoubleSlash(s);
    if NoDoubleSlash(s) && |s| > 0 {
      assert NoDoubleSlash(s[1..]);
      CollapseFixedPoints(s[1..]);
      if s[0] == '/' {
        assert SkipSlashes(s[1..]) == s[1..];
      }
      assert s == [s[0]] + s[1..];
    }
  }

  /** Collapsing twice is collapsing once. */
  lemma CollapseIdempotent(s: string)
    ensures Collapse(Collapse(s)) == Collapse(s)
  {
    CollapseFixedPoints(Collapse(s));
  }

  /** A run of `n` slashes. */
  function Slashes(n: nat): (r: string)
    ensures |r| == n && forall i :: 0 <= i < n ==> r[i] == '/'
  {
    if n == 0 then "" else Slashes(n - 1) + "/"
  }

  /** Every run of slashes, however long, collapses as one slash would: the run is
      kept as exactly one '/', never dropped and never doubled. */
  lemma {:induction false} CollapseRun(a: string, n: nat, b: string)
    requires n >= 1
    ensures Collapse(a + Slashes(n) + b) == Collapse(a + "/" + b)
    decreases n
  {
    if n > 1 {
      var m := n - 2;
      assert Slashes(n) == Slashes(m) + "/" + "/";
      assert Slashes(n) == "//" + Slashes(m) by {
        assert forall i :: 0 <= i < n ==> Slashes(n)[i] == ("//" + Slashes(m))[i];
      }
      assert Slashes(n - 1) == "/" + Slashes(m) by {
        assert forall i :: 0 <= i < n - 1 ==> Slashes(n - 1)[i] == ("/" + Slashes(m))[i];
      }
      assert a + Slashes(n) + b == a + "//" + (Slashes(m) + b);
      assert a + Slashes(n - 1) + b == a + "/" + (Slashes(m) + b);
      CollapseDoubleSlash(a, Slashes(m) + b);
      CollapseRun(a, n - 1, b);
    } else {
      assert Slashes(1) == "/";
    }
  }

  /** Skipping the leading slashes of a join: the join's second part is reached only
      when the first part is all slashes. */
  lemma {:induction false} SkipAppend(x: string, y: string)
    ensures SkipSlashes(x + y) == if SkipSlashes(x) == "" then SkipSlashes(y) else SkipSlashes(x) + y
    decreases |x|
  {
    if |x| == 0 {
      assert x + y == y;
    } else if x[0] == '/' {
      assert (x + y)[1..] == x[1..] + y;
      SkipAppend(x[1..], y);
    }
  }

  /** A double slash collapses exactly as a single one: a run of slashes becomes one
      slash and is never dropped. With `CollapseFixedPoints` this fixes the result. */
  lemma {:induction false} CollapseDoubleSlash(a: string, b: string)
    ensures Collapse(a + "//" + b) == Collapse(a + "/" + b)
    decreases |a|, 1
  {
    if |a| == 0 {
      DoubleSlashFirst(b);
      assert a + "//" + b == "//" + b;
      assert a + "/" + b == "/" + b;
    } else {
      CollapseHead(a, "//", b);
      CollapseHead(a, "/", b);
      if a[0] != '/' {
        CollapseDoubleSlash(a[1..], b);
      } else {
        SlashRunHead(a[1..], b);
      }
    }
  }

  /** One step of `Collapse` on a three-part concatenation with a non-empty first part. */
  lemma CollapseHead(a: string, m: string, b: string)
    requires |a| > 0
    ensures Collapse(a + m + b) ==
      if a[0] == '/' then "/" + Collapse(SkipSlashes(a[1..] + m + b)) else [a[0]] + Collapse(a[1..] + m + b)
  {
    HeadSplit(a, m, b);
    CollapseCons(a[0], a[1..] + m + b);
  }

  /** The case of `CollapseDoubleSlash` where `a` starts with a slash. */
  lemma {:induction false} SlashRunHead(rest: string, b: string)
    ensures Collapse(SkipSlashes(rest + "//" + b)) == Collapse(SkipSlashes(rest + "/" + b))
    decreases |rest| + 1, 0
  {
    var c := SkipSlashes(rest);
    if c == "" {
      AllSlashesRun(rest, b);
    } else {
      Assoc(rest, "//", b);
      Assoc(rest, "/", b);
      Assoc(c, "//", b);
      Assoc(c, "/", b);
      SkipThrough(rest, "//" + b);
      SkipThrough(rest, "/" + b);
      CollapseDoubleSlash(c, b);
    }
  }

  /** When `x` is not all slashes, skipping stops inside it. */
  lemma SkipThrough(x: string, w: string)
    requires SkipSlashes(x) != ""
    ensures SkipSlashes(x + w) == SkipSlashes(x) + w
  {
    SkipAppend(x, w);
  }

  /** The first character of `a` split off a three-part concatenation. */
  lemma HeadSplit(a: string, m: string, b: string)
    requires |a| > 0
    ensures a + m + b == [a[0]] + (a[1..] + m + b)
  {
    assert a == [a[0]] + a[1..];
  }

  /** Concatenation regroups; stated once so that proofs can call it cheaply. */
  lemma Assoc(x: string, y: string, z: string)
    ensures x + y + z == x + (y + z)
  {
  }

  /** After a string of slashes only, one more slash is skipped as well. */
  lemma AllSlashesRun(rest: string, b: string)
    requires SkipSlashes(rest) == ""
    ensures SkipSlashes(rest + "//" + b) == SkipSlashes(rest + "/" + b)
  {
    assert rest + "//" + b == rest + ("//" + b);
    assert rest + "/" + b == rest + ("/" + b);
    SkipAppend(rest, "//" + b);
    SkipAppend(rest, "/" + b);
    SkipLeading(b);
  }

  /** Leading slashes are skipped however many there are. */
  lemma SkipLeading(b: string)
    ensures SkipSlashes("//" + b) == SkipSlashes(b)
    ensures SkipSlashes("/" + b) == SkipSlashes(b)
  {
    assert "//" + b == ['/'] + ("/" + b);
    assert "/" + b == ['/'] + b;
    SkipCons('/', "/" + b);
    SkipCons('/', b);
  }

  /** `CollapseDoubleSlash` at the start of the string. */
  lemma DoubleSlashFirst(b: string)
    ensures Collapse("//" + b) == Collapse("/" + b)
  {
    assert "//" + b == ['/'] + ("/" + b);
    assert "/" + b == ['/'] + b;
    CollapseCons('/', "/" + b);
    CollapseCons('/', b);
    SkipCons('/', b);
  }

  /** One step of `Collapse`. */
  lemma CollapseCons(x: char, t: string)
    ensures Collapse([x] + t) == if x == '/' then "/" + Collapse(SkipSlashes(t)) else [x] + Collapse(t)
  {
    assert ([x] + t)[1..] == t;
  }

  /** One step of `SkipSlashes`. */
  lemma SkipCons(x: char, t: string)
    ensures SkipSlashes([x] + t) == if x == '/' then SkipSlashes(t) else [x] + t
  {
    assert ([x] + t)[1..] == t;
  }

  /** `s` without the slashes at its end. */
  function DropTrailingSlashes(s: string): (r: string)
    ensures |r| <= |s| && r == s[..|r|]
    ensures forall i :: |r| <= i < |s| ==> s[i] == '/'
    ensures |r| > 0 ==> r[|r| - 1] != '/'
    decreases |s|
  {
    if |s| > 0 && s[|s| - 1] == '/' then DropTrailingSlashes(s[..|s| - 1]) else s
  }

  /** Slashes after a slash are absorbed by it. */
  lemma {:induction false} CollapseSkipAfterSlash(x: string, y: string)
    ensures Collapse(x + "/" + y) == Collapse(x + "/" + SkipSlashes(y))
    decreases |y|
  {
    if |y| > 0 && y[0] == '/' {
      assert x + "/" + y == x + "//" + y[1..];
      CollapseDoubleSlash(x, y[1..]);
      CollapseSkipAfterSlash(x, y[1..]);
    }
  }

  /** Slashes before a slash are absorbed by it. */
  lemma {:induction false} CollapseSkipBeforeSlash(x: string, y: string)
    ensures Collapse(x + "/" + y) == Collapse(DropTrailingSlashes(x) + "/" + y)
    decreases |x|
  {
    if |x| > 0 && x[|x| - 1] == '/' {
      var x' := x[..|x| - 1];
      assert x + "/" + y == x' + "//" + y;
      CollapseDoubleSlash(x', y);
      CollapseSkipBeforeSlash(x', y);
    }
  }

  /** Collapsing works piecewise across a seam that is not two slashes. */
  lemma {:induction false} CollapseAppend(x: string, y: string)
    requires !(|x| > 0 && |y| > 0 && x[|x| - 1] == '/' && y[0] == '/')
    ensures Collapse(x + y) == Collapse(x) + Collapse(y)
    decreases |x|, 1
  {
    if |x| == 0 {
      assert x + y == y;
    } else {
      var rest := x[1..];
      assert x == [x[0]] + rest;
      Assoc([x[0]], rest, y);
      CollapseCons(x[0], rest + y);
      CollapseCons(x[0], rest);
      if x[0] != '/' {
        CollapseAppend(rest, y);
        Assoc([x[0]], Collapse(rest), Collapse(y));
      } else {
        SlashAppend(rest, y);
        Assoc("/", Collapse(SkipSlashes(rest)), Collapse(y));
      }
    }
  }

  /** The case of `CollapseAppend` where `x` starts with a slash. */
  lemma {:induction false} SlashAppend(rest: string, y: string)
    requires !(|y| > 0 && y[0] == '/' && (|rest| == 0 || rest[|rest| - 1] == '/'))
    ensures Collapse(SkipSlashes(rest + y)) == Collapse(SkipSlashes(rest)) + Collapse(y)
    decreases |rest| + 1, 0
  {
    var c := SkipSlashes(rest);
    SkipAppend(rest, y);
    if c == "" {
      SkipNoSlash(y);
    } else {
      assert c[|c| - 1] == rest[|rest| - 1];
      CollapseAppend(c, y);
    }
  }

  /** A string not starting with a slash has none to skip. */
  lemma SkipNoSlash(q: string)
    requires |q| > 0 ==> q[0] != '/'
    ensures SkipSlashes(q) == q
  {
  }

  /** The object name an uploaded file gets: `${prefix}/${file.path}` with slash runs collapsed. */
  function Destination(prefix: string, path: string): (r: string)
    ensures NoDoubleSlash(r)
    ensures |r| <= |prefix| + 1 + |path|
    ensures Strip(r) == Strip(prefix + path)
  {
    var s := prefix + "/" + path;
    CollapseNoDoubleSlash(s);
    CollapseKeepsText(s);
    assert s == prefix + ("/" + path);
    StripAppend(prefix, "/" + path);
    assert ("/" + path)[1..] == path;
    StripAppend(prefix, path);
    Collapse(s)
  }

  lemma {:induction false} StripAppend(a: string, b: string)
    ensures Strip(a + b) == Strip(a) + Strip(b)
    decreases |a|
  {
    if |a| == 0 {
      assert a + b == b;
    } else {
      assert (a + b)[0] == a[0];
      assert (a + b)[1..] == a[1..] + b;
      StripAppend(a[1..], b);
    }
  }

  /** Prefix and path are joined by exactly one slash: the destination is the collapsed
      prefix without its trailing slashes, one '/', and the collapsed path without its
      leading slashes. */
  lemma DestinationSeam(prefix: string, path: string)
    ensures Destination(prefix, path)
      == Collapse(DropTrailingSlashes(prefix)) + "/" + Collapse(SkipSlashes(path))
  {
    var p := DropTrailingSlashes(prefix);
    var q := SkipSlashes(path);
    CollapseSkipBeforeSlash(prefix, path);
    CollapseSkipAfterSlash(p, path);
    Assoc(p, "/", q);
    CollapseAppend(p, "/" + q);
    assert "/" + q == ['/'] + q;
    CollapseCons('/', q);
    SkipNoSlash(q);
    Assoc(Collapse(p), "/", Collapse(q));
  }

  /** With a clean prefix and a clean relative path, the destination is their plain
      join with one slash. */
  lemma DestinationPlainJoin(prefix: string, path: string)
    requires NoDoubleSlash(prefix) && NoDoubleSlash(path)
    requires |prefix| > 0 ==> prefix[|prefix| - 1] != '/'
    requires |path| > 0 ==> path[0] != '/'
    ensures Destination(prefix, path) == prefix + "/" + path
  {
    AppendNoDoubleSlash(prefix, "/");
    AppendNoDoubleSlash(prefix + "/", path);
    CollapseFixedPoints(prefix + "/" + path);
  }

  /** Joining two strings without a double slash makes one only at the seam. */
  lemma AppendNoDoubleSlash(a: string, b: string)
    requires NoDoubleSlash(a) && NoDoubleSlash(b)
    requires |a| > 0 && |b| > 0 ==> !(a[|a| - 1] == '/' && b[0] == '/')
    ensures NoDoubleSlash(a + b)
  {
    var s := a + b;
    forall i | 0 <= i < |s| - 1
      ensures !(s[i] == '/' && s[i + 1] == '/')
    {
      if i < |a| - 1 {
        assert s[i] == a[i] && s[i + 1] == a[i + 1];
      } else if i >= |a| {
        assert s[i] == b[i - |a|] && s[i + 1] == b[i + 1 - |a|];
      }
    }
  }

  /** The last index of `c` in `s`, or -1. */
  function LastIndexOf(s: string, c: char): (r: int)
    ensures -1 <= r < |s|
    ensures r >= 0 ==> s[r] == c
    ensures forall i :: r < i < |s| ==> s[i] != c
  {
    if |s| == 0 then -1
    else if s[|s| - 1] == c then |s| - 1
    else LastIndexOf(s[..|s| - 1], c)
  }

  /** The last path component. */
  function BaseName(p: string): (r: string)
    ensures '/' !in r
    ensures |r| <= |p| && r == p[|p| - |r|..]
  {
    var k := LastIndexOf(p, '/');
    p[k + 1..]
  }

  /** `path.extname`: from the last dot of the last component, unless that dot starts
      the component (a dot-file has no extension), the component is `..`, or there is
      no dot. */
  function ExtName(p: string): (r: string)
    ensures r == "" || (r[0] == '.' && '.' !in r[1..] && '/' !in r)
    ensures |r| <= |p| && r == p[|p| - |r|..]
    ensures r != "" <==> HasExtension(BaseName(p))
    ensures |r| <= |BaseName(p)| && r == BaseName(p)[|BaseName(p)| - |r|..]
  {
    ExtOf(BaseName(p))
  }

  /** The cases `path.extname` distinguishes within one component: an extension after
      the last dot, none for a dot-file, and none for `..`. */
  lemma ExtNameCases()
    ensures ExtOf("index.html") == ".html"
    ensures ExtOf("app.min.js") == ".js"
    ensures ExtOf(".env") == ""
    ensures ExtOf("..") == ""
  {
    LastIndexOfIs("index.html", '.', 5);
    LastIndexOfIs("app.min.js", '.', 7);
    LastIndexOfIs(".env", '.', 0);
  }

  /** Directories do not matter: a name after a slash has the extension it has alone. */
  lemma ExtNameInDirectory(dir: string, name: string)
    requires |dir| > 0 && dir[|dir| - 1] == '/' && '/' !in name
    ensures BaseName(dir + name) == name
    ensures ExtName(dir + name) == ExtOf(name)
  {
    var p := dir + name;
    LastIndexOfIs(p, '/', |dir| - 1);
    assert p[|dir|..] == name;
  }

  /** The last index is the one position holding `c` with no `c` after it. */
  lemma LastIndexOfIs(s: string, c: char, k: int)
    requires -1 <= k < |s|
    requires k >= 0 ==> s[k] == c
    requires forall i :: k < i < |s| ==> s[i] != c
    ensures LastIndexOf(s, c) == k
  {
  }

  /** A component has an extension when a dot follows its first character and it is
      not `..`. */
  predicate HasExtension(b: string) {
    b != ".." && exists i :: 0 < i < |b| && b[i] == '.'
  }

  /** The extension of one path component: empty exactly when it has none, and
      otherwise the suffix from its last dot, which is a dot followed by no dot. */
  function ExtOf(b: string): (r: string)
    ensures r == "" || (r[0] == '.' && '.' !in r[1..])
    ensures '/' !in b ==> '/' !in r
    ensures |r| <= |b| && r == b[|b| - |r|..]
    ensures r != "" <==> HasExtension(b)
  {
    var d := LastIndexOf(b, '.');
    if d <= 0 || b == ".." then ""
    else
      assert b[d] == '.';
      b[d..]
  }

  const OctetStream: string := "application/octet-stream"

  const MimeTable: map<string, string> := map[
    ".html" := "text/html",
    ".js" := "application/javascript",
    ".mjs" := "application/javascript",
    ".css" := "text/css",
    ".json" := "application/json",
    ".png" := "image/png",
    ".jpg" := "image/jpeg",
    ".jpeg" := "image/jpeg",
    ".svg" := "image/svg+xml",
    ".txt" := "text/plain",
    ".ts" := "text/plain",
    ".tsx" := "text/plain",
    ".map" := "application/json"]

  /** `getContentType`: the table entry of the lower-cased extension, or octet-stream. */
  function ContentType(p: string): (r: string)
    ensures Lower(ExtName(p)) in MimeTable ==> r == MimeTable[Lower(ExtName(p))]
    ensures Lower(ExtName(p)) !in MimeTable ==> r == OctetStream
  {
    var ext := Lower(ExtName(p));
    if ext in MimeTable then MimeTable[ext] else OctetStream
  }

  /** A path without an extension, or with one the table lacks, is octet-stream. */
  lemma ContentTypeFallback(p: string)
    ensures ExtName(p) == "" ==> ContentType(p) == OctetStream
  {
    assert Lower("") == "";
    assert "" !in MimeTable;
  }

  /** The letter case of a path does not change its content type: ".HTML" and ".html"
      agree, because the extension is found the same way and then lower-cased. */
  lemma ContentTypeIgnoresCase(p: string)
    ensures ContentType(p) == ContentType(Lower(p))
  {
    ExtNameLower(p);
    LowerIsLowerCase(ExtName(p));
  }

  /** Taking the extension commutes with lower-casing, since dots and slashes are not letters. */
  lemma ExtNameLower(p: string)
    ensures ExtName(Lower(p)) == Lower(ExtName(p))
  {
    BaseNameLower(p);
    ExtOfLower(BaseName(p));
  }

  lemma ExtOfLower(b: string)
    ensures ExtOf(Lower(b)) == Lower(ExtOf(b))
  {
    LastIndexOfLower(b, '.');
    var d := LastIndexOf(b, '.');
    assert Lower(b) == ".." <==> b == ".." by {
      if Lower(b) == ".." {
        assert LowerChar(b[0]) == '.' && LowerChar(b[1]) == '.';
      }
    }
    if d > 0 && b != ".." {
      LowerSuffix(b, d);
    } else {
      assert Lower("") == "";
    }
  }

  lemma BaseNameLower(p: string)
    ensures BaseName(Lower(p)) == Lower(BaseName(p))
  {
    LastIndexOfLower(p, '/');
    LowerSuffix(p, LastIndexOf(p, '/') + 1);
  }

  lemma LowerSuffix(s: string, k: nat)
    requires k <= |s|
    ensures Lower(s)[k..] == Lower(s[k..])
  {
  }

  lemma {:induction false} LastIndexOfLower(s: string, c: char)
    requires c == '/' || c == '.'
    ensures LastIndexOf(Lower(s), c) == LastIndexOf(s, c)
    decreases |s|
  {
    if |s| > 0 {
      assert Lower(s)[..|s| - 1] == Lower(s[..|s| - 1]);
      LastIndexOfLower(s[..|s| - 1], c);
    }
  }

  datatype FileEntry = FileEntry(path: string, contentBase64: string)

  /** One object upload: where it goes, its declared type, and its content. */
  datatype Upload = Upload(destination: string, contentType: string, contentBase64: string)

  /** The uploads `uploadFileTree` issues, one per file. */
  function UploadPlan(prefix: string, files: seq<FileEntry>): (r: seq<Upload>)
    ensures |r| == |files|
    ensures forall i :: 0 <= i < |files| ==>
      && r[i].destination == Destination(prefix, files[i].path)
      && r[i].contentType == ContentType(files[i].path)
      && r[i].contentBase64 == files[i].contentBase64
    ensures forall i :: 0 <= i < |r| ==> NoDoubleSlash(r[i].destination)
  {
    seq(|files|, i requires 0 <= i < |files| =>
      Upload(Destination(prefix, files[i].path), ContentType(files[i].path), files[i].contentBase64))
  }
}
