/** '/'-joined paths as text.  The program keeps paths as strings; the inode model and the path
    cipher work on their components.  These lemmas say that the two views agree. */
module PathText {
  import opened Prelude

  ghost predicate Free<T>(part: seq<T>, sep: T) {
    sep !in part
  }

  /** A component: not empty, and without the separator. */
  ghost predicate Component<T>(part: seq<T>, sep: T) {
    part != [] && sep !in part
  }

  ghost predicate AllFree<T>(parts: seq<seq<T>>, sep: T) {
    forall i :: 0 <= i < |parts| ==> sep !in parts[i]
  }

  ghost predicate AllComponents<T>(parts: seq<seq<T>>, sep: T) {
    forall i :: 0 <= i < |parts| ==> Component(parts[i], sep)
  }

  function Join<T>(parts: seq<seq<T>>, sep: T): (s: seq<T>) {
    if parts == [] then []
    else if |parts| == 1 then parts[0]
    else parts[0] + [sep] + Join(parts[1..], sep)
  }

  /** The parts between separators; the empty text has one empty part. */
  function Split<T(==)>(s: seq<T>, sep: T): (parts: seq<seq<T>>)
    ensures parts != []
  {
    if s == [] then [[]] else Prepend(s[0], Split(s[1..], sep), sep)
  }

  lemma {:induction false} JoinSplit<T>(s: seq<T>, sep: T)
    ensures Join(Split(s, sep), sep) == s && AllFree(Split(s, sep), sep)
  {
    if s != [] {
      var rest := Split(s[1..], sep);
      JoinSplit(s[1..], sep);
      if s[0] == sep {
        assert Split(s, sep)[1..] == rest;
        assert [] + [sep] + s[1..] == s;
      } else {
        var parts := Split(s, sep);
        assert parts[1..] == rest[1..];
        if |rest| == 1 {
          assert parts == [[s[0]] + rest[0]];
          assert [s[0]] + s[1..] == s;
        } else {
          JoinFirst(rest, s[0], sep);
        }
      }
    }
  }

  lemma JoinFirst<T>(rest: seq<seq<T>>, x: T, sep: T)
    requires |rest| > 1
    ensures Join([[x] + rest[0]] + rest[1..], sep) == [x] + Join(rest, sep)
  {
    var parts := [[x] + rest[0]] + rest[1..];
    assert parts[1..] == rest[1..];
    assert ([x] + rest[0]) + [sep] + Join(rest[1..], sep) == [x] + (rest[0] + [sep] + Join(rest[1..], sep));
  }

  /** Splitting at one separator first. */
  lemma {:induction false} SplitAppend<T>(a: seq<T>, b: seq<T>, sep: T)
    ensures Split(a + [sep] + b, sep) == Split(a, sep) + Split(b, sep)
  {
    var s := a + [sep] + b;
    if a == [] {
      assert s[0] == sep && s[1..] == b;
    } else {
      assert s[1..] == a[1..] + [sep] + b && s[0] == a[0];
      SplitAppend(a[1..], b, sep);
      PrependAppend(a[0], Split(a[1..], sep), Split(b, sep), sep);
    }
  }

  /** What `Split` does with one more character in front. */
  function Prepend<T(==)>(x: T, rest: seq<seq<T>>, sep: T): (parts: seq<seq<T>>)
    requires rest != []
    ensures parts != []
  {
    if x == sep then [[]] + rest else [[x] + rest[0]] + rest[1..]
  }

  lemma PrependAppend<T>(x: T, a: seq<seq<T>>, b: seq<seq<T>>, sep: T)
    requires a != []
    ensures Prepend(x, a + b, sep) == Prepend(x, a, sep) + b
  {
    assert (a + b)[0] == a[0] && (a + b)[1..] == a[1..] + b;
  }

  lemma {:induction false} SplitFree<T>(p: seq<T>, sep: T)
    requires sep !in p
    ensures Split(p, sep) == [p]
  {
    if p != [] {
      SplitFree(p[1..], sep);
      assert [p[0]] + p[1..] == p;
    }
  }

  lemma {:induction false} SplitJoin<T>(parts: seq<seq<T>>, sep: T)
    requires parts != [] && AllFree(parts, sep)
    ensures Split(Join(parts, sep), sep) == parts
  {
    if |parts| == 1 {
      SplitFree(parts[0], sep);
      assert parts == [parts[0]];
    } else {
      SplitAppend(parts[0], Join(parts[1..], sep), sep);
      SplitFree(parts[0], sep);
      SplitJoin(parts[1..], sep);
      assert parts == [parts[0]] + parts[1..];
    }
  }

  lemma {:induction false} JoinConcat<T>(a: seq<seq<T>>, b: seq<seq<T>>, sep: T)
    requires a != [] && b != []
    ensures Join(a + b, sep) == Join(a, sep) + [sep] + Join(b, sep)
  {
    if |a| == 1 {
      assert (a + b)[1..] == b;
    } else {
      assert (a + b)[1..] == a[1..] + b;
      JoinConcat(a[1..], b, sep);
      assert a[0] + [sep] + (Join(a[1..], sep) + [sep] + Join(b, sep))
          == (a[0] + [sep] + Join(a[1..], sep)) + [sep] + Join(b, sep);
    }
  }

  lemma JoinNonEmpty<T>(parts: seq<seq<T>>, sep: T)
    requires parts != [] && AllComponents(parts, sep)
    ensures Join(parts, sep) != []
  {
    assert Component(parts[0], sep);
  }

  lemma ComponentsFree<T>(parts: seq<seq<T>>, sep: T)
    requires AllComponents(parts, sep)
    ensures AllFree(parts, sep)
  {
    forall i | 0 <= i < |parts|
      ensures sep !in parts[i]
    {
      assert Component(parts[i], sep);
    }
  }

  /** A path is known from its text. */
  lemma JoinInjective<T>(a: seq<seq<T>>, b: seq<seq<T>>, sep: T)
    requires AllComponents(a, sep) && AllComponents(b, sep) && Join(a, sep) == Join(b, sep)
    ensures a == b
  {
    ComponentsFree(a, sep);
    ComponentsFree(b, sep);
    if a != [] {
      JoinNonEmpty(a, sep);
      SplitJoin(a, sep);
    }
    if b != [] {
      JoinNonEmpty(b, sep);
      SplitJoin(b, sep);
    }
  }

  // ---- Prefixes ----

  function StripPrefix<T(==)>(s: seq<T>, prefix: seq<T>): (r: Option<seq<T>>)
    ensures r.Some? <==> prefix <= s
    ensures r.Some? ==> s == prefix + r.value
  {
    if prefix <= s then Some(s[|prefix|..]) else None
  }

  /** The part of `path` below the directory `prefix`, if it is strictly below it. */
  function StrictDescendantRel<T(==)>(path: seq<T>, prefix: seq<T>, sep: T): (r: Option<seq<T>>)
    ensures r.Some? ==> r.value != [] && path == prefix + [sep] + r.value
  {
    match StripPrefix(path, prefix)
    case None => None
    case Some(rest) =>
      match StripPrefix(rest, [sep])
      case None => None
      case Some(rel) => if rel == [] then None else Some(rel)
  }

  lemma StrictDescendantOf<T>(prefix: seq<T>, rel: seq<T>, sep: T)
    requires rel != []
    ensures StrictDescendantRel(prefix + [sep] + rel, prefix, sep) == Some(rel)
  {
    var path := prefix + [sep] + rel;
    assert path[..|prefix|] == prefix && path[|prefix|..] == [sep] + rel;
    assert ([sep] + rel)[1..] == rel;
  }

  /** On text, "strictly below the directory" is "has the directory's components as a proper prefix":
      a shared raw prefix that ends inside a component does not count. */
  lemma DescendantIff<T>(path: seq<seq<T>>, dir: seq<seq<T>>, sep: T)
    requires path != [] && dir != [] && AllComponents(path, sep) && AllComponents(dir, sep)
    ensures StrictDescendantRel(Join(path, sep), Join(dir, sep), sep)
         == if dir < path then Some(Join(path[|dir|..], sep)) else None
  {
    ComponentsFree(path, sep);
    ComponentsFree(dir, sep);
    if dir < path {
      var rest := path[|dir|..];
      assert path == dir + rest;
      forall i | 0 <= i < |rest|
        ensures Component(rest[i], sep)
      {
        assert Component(path[|dir| + i], sep);
      }
      JoinConcat(dir, rest, sep);
      JoinNonEmpty(rest, sep);
      StrictDescendantOf(Join(dir, sep), Join(rest, sep), sep);
    } else {
      match StrictDescendantRel(Join(path, sep), Join(dir, sep), sep)
      case None =>
      case Some(rel) =>
        SplitAppend(Join(dir, sep), rel, sep);
        SplitJoin(dir, sep);
        SplitJoin(path, sep);
    }
  }

  // ---- Inode paths ----

  /** `child_path` of src/virtual_fs/inode.rs. */
  function ChildPathText(parent: string, name: string): (p: string) {
    if parent == "" then name else parent + "/" + name
  }

  lemma ChildPathAgrees(parent: seq<string>, name: string)
    requires AllComponents(parent, '/')
    ensures ChildPathText(Join(parent, '/'), name) == Join(parent + [name], '/')
  {
    if parent != [] {
      JoinNonEmpty(parent, '/');
      JoinConcat(parent, [name], '/');
    }
  }

  /** Replacing a raw text prefix, as the rename's batch does, replaces the components' prefix. */
  lemma RebaseAgrees(path: seq<string>, from: seq<string>, to: seq<string>)
    requires AllComponents(path, '/') && from != [] && to != [] && from <= path
    ensures Join(from, '/') <= Join(path, '/')
    ensures Join(to, '/') + Join(path, '/')[|Join(from, '/')|..] == Join(to + path[|from|..], '/')
  {
    var rest := path[|from|..];
    assert path == from + rest;
    if rest == [] {
      assert path == from && to + rest == to;
    } else {
      JoinConcat(from, rest, '/');
      JoinConcat(to, rest, '/');
      var tail := ['/'] + Join(rest, '/');
      assert Join(path, '/') == Join(from, '/') + tail;
    }
  }
}
