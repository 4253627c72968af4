/**
 * The part of Python's `pathlib.PurePosixPath` that the checkpoint loader
 * relies on: turning a path string into its final component (`name`) and
 * that component's last extension (`suffix`).
 *
 * A path is split at every '/', empty parts and "." parts are dropped, and
 * the name is the last part that remains ("" when none does).  The suffix is
 * the text from the last '.' of the name, provided that dot is neither the
 * first nor the last character of the name; otherwise there is no suffix.
 */
module Pathlib {

  const SEP: char := '/'
  const DOT: char := '.'

  /** Index of the last element satisfying `p`, or -1 (Python's `rfind`). */
  function LastIndex<T>(s: seq<T>, p: T -> bool): (r: int)
    ensures -1 <= r < |s|
    ensures r >= 0 ==> p(s[r])
    ensures forall k :: r < k < |s| ==> !p(s[k])
  {
    if s == [] then -1
    else if p(s[|s| - 1]) then |s| - 1
    else LastIndex(s[..|s| - 1], p)
  }

  /** Splits at every separator, like Python's `str.split('/')`. */
  function Split(path: string): (parts: seq<string>)
    ensures |parts| >= 1
    ensures forall i :: 0 <= i < |parts| ==> SEP !in parts[i]
  {
    if path == [] then [[]]
    else
      var rest := Split(path[1..]);
      if path[0] == SEP then [[]] + rest
      else [[path[0]] + rest[0]] + rest[1..]
  }

  /** Inverse of `Split`, like Python's `'/'.join(parts)`. */
  function Join(parts: seq<string>): string
    requires |parts| >= 1
  {
    if |parts| == 1 then parts[0] else parts[0] + [SEP] + Join(parts[1..])
  }

  /** A part that pathlib keeps when it parses a path. */
  predicate Meaningful(part: string) {
    part != [] && part != [DOT]
  }

  predicate IsDot(c: char) {
    c == DOT
  }

  /** `PurePosixPath(path).name`. */
  function Name(path: string): (name: string)
    ensures SEP !in name
    ensures name == [] || Meaningful(name)
  {
    var parts := Split(path);
    var i := LastIndex(parts, Meaningful);
    if i < 0 then [] else parts[i]
  }

  /**
   * `PurePath(name).suffix` for a name that is already a single component:
   * empty, or an extension that ends the name with something before it.
   */
  function Suffix(name: string): (suffix: string)
    ensures suffix == [] || (Extension(suffix) && EndsProperly(name, suffix))
  {
    var i := LastIndex(name, IsDot);
    if 0 < i < |name| - 1 then name[i..] else []
  }

  /** The shape of a suffix: a dot followed by at least one non-dot character. */
  predicate Extension(ext: string) {
    |ext| >= 2 && ext[0] == DOT && DOT !in ext[1..]
  }

  /** `ext` ends `name` and something non-empty precedes it. */
  predicate EndsProperly(name: string, ext: string) {
    |name| > |ext| && name[|name| - |ext|..] == ext
  }

  // ---------------------------------------------------------------------
  // Splitting and joining

  lemma {:induction false} JoinSplit(path: string)
    ensures Join(Split(path)) == path
  {
    if path != [] {
      JoinSplit(path[1..]);
      var rest := Split(path[1..]);
      if path[0] == SEP {
        assert Split(path) == [[]] + rest;
        assert ([[]] + rest)[1..] == rest;
      } else {
        var parts := [[path[0]] + rest[0]] + rest[1..];
        assert Split(path) == parts;
        if |rest| == 1 {
          assert Join(rest) == rest[0];
        } else {
          assert parts[1..] == rest[1..];
          assert Join(rest) == rest[0] + [SEP] + Join(rest[1..]);
        }
      }
    }
  }

  /** One step of `Split`: the first character either ends a part or extends it. */
  lemma SplitCons(c: char, s: string)
    ensures Split([c] + s) ==
              if c == SEP then [[]] + Split(s) else [[c] + Split(s)[0]] + Split(s)[1..]
  {
    assert ([c] + s)[0] == c && ([c] + s)[1..] == s;
  }

  /** Extending the first part of a concatenation of part lists. */
  lemma ExtendFirst<T>(x: seq<T>, xs: seq<seq<T>>, ys: seq<seq<T>>)
    requires |xs| >= 1
    ensures [x + (xs + ys)[0]] + (xs + ys)[1..] == ([x + xs[0]] + xs[1..]) + ys
  {
    assert (xs + ys)[0] == xs[0];
    assert (xs + ys)[1..] == xs[1..] + ys;
  }

  /** Prepending a new first part of a concatenation of part lists. */
  lemma PrependFirst<T>(x: seq<T>, xs: seq<seq<T>>, ys: seq<seq<T>>)
    ensures [x] + (xs + ys) == ([x] + xs) + ys
  {
  }

  /** The inductive step of `SplitAtSep`: prepending one character to `a`. */
  lemma SplitAtSepStep(c: char, a: string, rest: string, b: string)
    requires Split(rest) == Split(a) + Split(b)
    ensures Split([c] + rest) == Split([c] + a) + Split(b)
  {
    SplitCons(c, rest);
    SplitCons(c, a);
    if c != SEP {
      ExtendFirst([c], Split(a), Split(b));
    } else {
      PrependFirst([], Split(a), Split(b));
    }
  }

  /** Splitting at one separator splits the two sides independently. */
  lemma {:induction false} SplitAtSep(a: string, b: string)
    ensures Split(a + [SEP] + b) == Split(a) + Split(b)
  {
    if a == [] {
      assert a + [SEP] + b == [SEP] + b;
      SplitCons(SEP, b);
    } else {
      var c, a' := a[0], a[1..];
      SplitAtSep(a', b);
      SplitAtSepStep(c, a', a' + [SEP] + b, b);
      assert [c] + a' == a;
      assert [c] + (a' + [SEP] + b) == a + [SEP] + b;
    }
  }

  /** A string without separators is a single part. */
  lemma {:induction false} SplitNoSep(s: string)
    requires SEP !in s
    ensures Split(s) == [s]
  {
    if s != [] {
      assert SEP !in s[1..];
      SplitNoSep(s[1..]);
      assert [s[0]] + s[1..] == s;
    }
  }

  lemma {:induction false} SplitJoin(parts: seq<string>)
    requires |parts| >= 1
    requires forall i :: 0 <= i < |parts| ==> SEP !in parts[i]
    ensures Split(Join(parts)) == parts
  {
    SplitNoSep(parts[0]);
    if |parts| > 1 {
      SplitJoin(parts[1..]);
      SplitAtSep(parts[0], Join(parts[1..]));
      assert [parts[0]] + parts[1..] == parts;
    }
  }

  // ---------------------------------------------------------------------
  // The final component

  lemma {:induction false} LastIndexAppend<T>(xs: seq<T>, ys: seq<T>, p: T -> bool)
    ensures LastIndex(xs + ys, p) ==
            if LastIndex(ys, p) >= 0 then |xs| + LastIndex(ys, p) else LastIndex(xs, p)
  {
    if ys != [] {
      var zs := xs + ys;
      assert zs[|zs| - 1] == ys[|ys| - 1];
      if !p(ys[|ys| - 1]) {
        assert zs[..|zs| - 1] == xs + ys[..|ys| - 1];
        LastIndexAppend(xs, ys[..|ys| - 1], p);
      }
    } else {
      assert xs + ys == xs;
    }
  }

  /** The name of `dir/file` is `file`: nothing in the directory part counts. */
  lemma NameOfChild(dir: string, file: string)
    requires SEP !in file && Meaningful(file)
    ensures Name(dir + [SEP] + file) == file
  {
    SplitAtSep(dir, file);
    SplitNoSep(file);
    LastIndexAppend(Split(dir), [file], Meaningful);
  }

  /** A single meaningful component is its own name. */
  lemma NameOfComponent(file: string)
    requires SEP !in file && Meaningful(file)
    ensures Name(file) == file
  {
    SplitNoSep(file);
  }

  /** Trailing "/" and "/." do not change the name. */
  lemma NameIgnoresTrailing(path: string, tail: string)
    requires tail == [] || tail == [DOT]
    ensures Name(path + [SEP] + tail) == Name(path)
  {
    SplitAtSep(path, tail);
    SplitNoSep(tail);
    LastIndexAppend(Split(path), [tail], Meaningful);
  }

  // ---------------------------------------------------------------------
  // The suffix

  /**
   * Characterisation of `Suffix` without `rfind`: the suffix is `ext` exactly
   * when the name ends with `ext` and is longer than it.
   */
  lemma SuffixIs(name: string, ext: string)
    requires Extension(ext)
    ensures Suffix(name) == ext <==> EndsProperly(name, ext)
  {
  }

  /** A name without a dot has no suffix. */
  lemma NoDotNoSuffix(name: string)
    requires DOT !in name
    ensures Suffix(name) == []
  {
  }

  /** A name with no suffix is not properly ended by any extension. */
  lemma NoSuffix(name: string, ext: string)
    requires Suffix(name) == [] && Extension(ext)
    ensures !EndsProperly(name, ext)
  {
  }
}
