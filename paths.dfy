/**
  The file-name part of PHP's `pathinfo($path, PATHINFO_FILENAME)` on a system whose only
  directory separator is '/': trailing separators are ignored, the last path segment is kept,
  and the text from its last '.' on is dropped.

  The functions are plain definitions; what each one computes is stated by the lemma after it.
*/
module Paths {

  /** True of a directory prefix that a file name can be appended to directly. */
  predicate IsDirPrefix(dir: string) {
    dir == [] || dir[|dir| - 1] == '/'
  }

  /** `path` without its trailing separators. */
  function StripTrailingSlashes(path: string): string {
    if |path| > 0 && path[|path| - 1] == '/' then StripTrailingSlashes(path[..|path| - 1]) else path
  }

  /** `StripTrailingSlashes` keeps the longest prefix that does not end in '/'. */
  lemma {:induction false} StripTrailingSlashesSpec(path: string)
    ensures StripTrailingSlashes(path) <= path
    ensures StripTrailingSlashes(path) == [] || StripTrailingSlashes(path)[|StripTrailingSlashes(path)| - 1] != '/'
    ensures forall i :: |StripTrailingSlashes(path)| <= i < |path| ==> path[i] == '/'
  {
    if |path| > 0 && path[|path| - 1] == '/' {
      StripTrailingSlashesSpec(path[..|path| - 1]);
    }
  }

  /** The text after the last separator of `path`. */
  function LastSegment(path: string): string {
    if path == [] || path[|path| - 1] == '/' then []
    else LastSegment(path[..|path| - 1]) + [path[|path| - 1]]
  }

  /** `LastSegment` is a suffix of `path`. */
  lemma {:induction false} LastSegmentIsSuffix(path: string)
    ensures |LastSegment(path)| <= |path| && LastSegment(path) == path[|path| - |LastSegment(path)|..]
  {
    if path != [] && path[|path| - 1] != '/' {
      var prefix := path[..|path| - 1];
      LastSegmentIsSuffix(prefix);
      var r := LastSegment(prefix);
      assert LastSegment(path) == r + [path[|path| - 1]];
      assert r + [path[|path| - 1]] == path[|prefix| - |r|..];
    }
  }

  /** `LastSegment` holds no separator. */
  lemma {:induction false} LastSegmentHasNoSeparator(path: string)
    ensures '/' !in LastSegment(path)
  {
    if path != [] && path[|path| - 1] != '/' {
      LastSegmentHasNoSeparator(path[..|path| - 1]);
    }
  }

  /** Unless `LastSegment` is all of `path`, a separator comes right before it. */
  lemma {:induction false} LastSegmentAfterSeparator(path: string)
    ensures |LastSegment(path)| < |path| ==> path[|path| - |LastSegment(path)| - 1] == '/'
  {
    if path != [] && path[|path| - 1] != '/' {
      var prefix := path[..|path| - 1];
      LastSegmentAfterSeparator(prefix);
      var r := LastSegment(prefix);
      assert LastSegment(path) == r + [path[|path| - 1]];
      if |r| < |prefix| {
        assert path[|prefix| - |r| - 1] == prefix[|prefix| - |r| - 1];
      }
    }
  }

  /** `LastSegment` is the longest suffix of `path` that holds no separator. */
  lemma LastSegmentSpec(path: string)
    ensures |LastSegment(path)| <= |path| && LastSegment(path) == path[|path| - |LastSegment(path)|..]
    ensures '/' !in LastSegment(path)
    ensures |LastSegment(path)| < |path| ==> path[|path| - |LastSegment(path)| - 1] == '/'
  {
    LastSegmentIsSuffix(path);
    LastSegmentHasNoSeparator(path);
    LastSegmentAfterSeparator(path);
  }

  /** PHP's `basename`: the last segment once trailing separators are ignored. */
  function BaseName(path: string): string {
    LastSegment(StripTrailingSlashes(path))
  }

  /** `name` up to (not including) its last '.'; all of `name` when it has no '.'. */
  function DropExtension(name: string): string {
    if '.' !in name then name
    else if name[|name| - 1] == '.' then name[..|name| - 1]
    else DropExtension(name[..|name| - 1])
  }

  /** `DropExtension` cuts `name` at its last '.', and leaves a name without '.' alone. */
  lemma {:induction false} DropExtensionSpec(name: string)
    ensures DropExtension(name) <= name
    ensures '.' !in name ==> DropExtension(name) == name
    ensures '.' in name ==>
      var r := DropExtension(name);
      |r| < |name| && name[|r|] == '.' && '.' !in name[|r| + 1..]
  {
    if '.' in name && name[|name| - 1] != '.' {
      var prefix := name[..|name| - 1];
      DropExtensionSpec(prefix);
      var r := DropExtension(prefix);
      assert name[|r| + 1..] == prefix[|r| + 1..] + [name[|name| - 1]];
    }
  }

  /** `pathinfo($path, PATHINFO_FILENAME)`. */
  function FileName(path: string): string {
    DropExtension(BaseName(path))
  }

  /** A file name is a prefix of the base name and never holds a separator. */
  lemma FileNameSpec(path: string)
    ensures FileName(path) <= BaseName(path)
    ensures '/' !in FileName(path)
  {
    StripTrailingSlashesSpec(path);
    LastSegmentSpec(StripTrailingSlashes(path));
    DropExtensionSpec(BaseName(path));
  }

  /** The last segment of a directory prefix followed by a separator-free name is that name. */
  lemma LastSegmentAfterDir(dir: string, name: string)
    requires IsDirPrefix(dir) && '/' !in name
    ensures LastSegment(dir + name) == name
  {
    var p := dir + name;
    LastSegmentSpec(p);
    var r := LastSegment(p);
    assert r == p[|p| - |name|..] == name;
  }

  /** Dropping the extension of `stem.ext` gives back `stem` whenever `ext` holds no '.'. */
  lemma DropExtensionOfStem(stem: string, ext: string)
    requires '.' !in ext
    ensures DropExtension(stem + "." + ext) == stem
  {
    var n := stem + "." + ext;
    DropExtensionSpec(n);
    var r := DropExtension(n);
    assert n[|stem|] == '.';
    assert r == n[..|stem|] == stem;
  }

  /** The base name of `dir + stem + "." + ext` without its extension is `stem`. */
  lemma FileNameOfPath(dir: string, stem: string, ext: string)
    requires IsDirPrefix(dir)
    requires '/' !in stem && '/' !in ext && '.' !in ext
    ensures FileName(dir + stem + "." + ext) == stem
  {
    var seg := stem + "." + ext;
    assert dir + stem + "." + ext == dir + seg;
    assert seg[|seg| - 1] != '/' by {
      if ext == [] { assert seg[|seg| - 1] == '.'; } else { assert seg[|seg| - 1] == ext[|ext| - 1]; }
    }
    LastSegmentAfterDir(dir, seg);
    DropExtensionOfStem(stem, ext);
  }

  /** A path whose last segment has no '.' names a file whose base name is that whole segment. */
  lemma FileNameWithoutExtension(dir: string, stem: string)
    requires IsDirPrefix(dir)
    requires stem != [] && '/' !in stem && '.' !in stem
    ensures FileName(dir + stem) == stem
  {
    assert (dir + stem)[|dir + stem| - 1] == stem[|stem| - 1];
    LastSegmentAfterDir(dir, stem);
  }
}
