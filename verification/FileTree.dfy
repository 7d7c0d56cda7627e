/**
 * A map from paths to contents kept as a list in path order, the way an ordered
 * map iterates; a range scan from a prefix is the filter by that prefix.
 */
module FileTree {
  import opened Wrappers

  datatype File<C> = File(path: string, content: C)

  /** Lexicographic order; a proper prefix comes first. */
  predicate Less(a: string, b: string) {
    b != "" && (a == "" || a[0] < b[0] || (a[0] == b[0] && Less(a[1..], b[1..])))
  }

  lemma {:induction false} LessTransitive(a: string, b: string, c: string)
    requires Less(a, b) && Less(b, c)
    ensures Less(a, c)
  {
    if a != "" && a[0] == b[0] == c[0] {
      LessTransitive(a[1..], b[1..], c[1..]);
    }
  }

  lemma {:induction false} LessStrict(a: string, b: string)
    ensures !(Less(a, b) && Less(b, a)) && !Less(a, a)
    ensures a == b || Less(a, b) || Less(b, a)
  {
    if a != "" && b != "" {
      LessStrict(a[1..], b[1..]);
      assert a == [a[0]] + a[1..] && b == [b[0]] + b[1..];
    } else if a != "" {
      LessStrict(a[1..], a[1..]);
    }
  }

  ghost predicate Ordered<C>(t: seq<File<C>>) {
    forall i, j :: 0 <= i < j < |t| ==> Less(t[i].path, t[j].path)
  }

  function Lookup<C>(t: seq<File<C>>, path: string): Option<C> {
    if t == [] then None
    else if t[0].path == path then Some(t[0].content)
    else Lookup(t[1..], path)
  }

  function Put<C>(t: seq<File<C>>, path: string, content: C): seq<File<C>> {
    if t == [] then [File(path, content)]
    else if t[0].path == path then [File(path, content)] + t[1..]
    else if Less(path, t[0].path) then [File(path, content)] + t
    else [t[0]] + Put(t[1..], path, content)
  }

  function Remove<C>(t: seq<File<C>>, path: string): seq<File<C>> {
    if t == [] then []
    else if t[0].path == path then t[1..]
    else [t[0]] + Remove(t[1..], path)
  }

  predicate HasPath<C>(t: seq<File<C>>, path: string) {
    exists k :: 0 <= k < |t| && t[k].path == path
  }

  /** Everything after the head of an ordered tree lies strictly beyond it. */
  lemma {:induction false} HeadFirst<C>(t: seq<File<C>>, path: string)
    requires Ordered(t) && t != [] && !Less(t[0].path, path)
    ensures Lookup(t[1..], path) == None
    decreases |t|
  {
    if |t| > 1 {
      LessStrict(t[0].path, t[1].path);
      assert !Less(t[1].path, path) by {
        if Less(t[1].path, path) {
          LessTransitive(t[0].path, t[1].path, path);
        }
      }
      assert Ordered(t[1..]);
      HeadFirst(t[1..], path);
    }
  }

  lemma {:induction false} PutPaths<C>(t: seq<File<C>>, path: string, content: C)
    ensures forall f :: f in Put(t, path, content) ==> f in t || f == File(path, content)
  {
    if t != [] {
      PutPaths(t[1..], path, content);
    }
  }

  lemma {:induction false} PutOrdered<C>(t: seq<File<C>>, path: string, content: C)
    requires Ordered(t)
    ensures Ordered(Put(t, path, content))
  {
    if t != [] {
      LessStrict(t[0].path, path);
      PutOrdered(t[1..], path, content);
      PutPaths(t[1..], path, content);
      if Less(path, t[0].path) {
        forall k | 0 <= k < |t| ensures Less(path, t[k].path) {
          if k > 0 {
            LessTransitive(path, t[0].path, t[k].path);
          }
        }
      } else if t[0].path != path {
        var rest := Put(t[1..], path, content);
        forall k | 0 <= k < |rest| ensures Less(t[0].path, rest[k].path) {
          assert rest[k] in rest;
          assert forall f :: f in t[1..] ==> Less(t[0].path, f.path);
        }
      }
    }
  }

  lemma {:induction false} LookupPut<C>(t: seq<File<C>>, path: string, content: C, other: string)
    requires Ordered(t)
    ensures Lookup(Put(t, path, content), other) == if other == path then Some(content) else Lookup(t, other)
  {
    if t != [] && t[0].path != path {
      if Less(path, t[0].path) {
      } else {
        LookupPut(t[1..], path, content, other);
      }
    }
  }

  lemma {:induction false} LookupRemove<C>(t: seq<File<C>>, path: string, other: string)
    requires Ordered(t)
    ensures Ordered(Remove(t, path))
    ensures forall f :: f in Remove(t, path) ==> f in t
    ensures Lookup(Remove(t, path), other) == if other == path then None else Lookup(t, other)
  {
    if t != [] {
      if t[0].path == path {
        LessStrict(path, path);
        HeadFirst(t, path);
      } else {
        LookupRemove(t[1..], path, other);
        var rest := Remove(t[1..], path);
        forall k | 0 <= k < |rest| ensures Less(t[0].path, rest[k].path) {
          assert rest[k] in rest;
          assert forall f :: f in t[1..] ==> Less(t[0].path, f.path);
        }
      }
    }
  }

  /** An ordered tree is its lookup function: no two orders hold the same files. */
  lemma {:induction false} SameLookups<C>(a: seq<File<C>>, b: seq<File<C>>)
    requires Ordered(a) && Ordered(b)
    requires forall p :: Lookup(a, p) == Lookup(b, p)
    ensures a == b
  {
    if a == [] {
      if b != [] {
        assert Lookup(b, b[0].path).Some?;
      }
    } else {
      assert Lookup(a, a[0].path).Some?;
      assert b != [];
      assert Lookup(b, b[0].path).Some?;
      LessStrict(a[0].path, b[0].path);
      if Less(a[0].path, b[0].path) {
        LessStrict(b[0].path, a[0].path);
        HeadFirst(b, a[0].path);
      } else if Less(b[0].path, a[0].path) {
        LessStrict(a[0].path, b[0].path);
        HeadFirst(a, b[0].path);
      }
      assert a[0] == b[0];
      LessStrict(a[0].path, a[0].path);
      forall p ensures Lookup(a[1..], p) == Lookup(b[1..], p) {
        if p == a[0].path {
          HeadFirst(a, p);
          HeadFirst(b, p);
        } else {
          assert Lookup(a, p) == Lookup(b, p);
        }
      }
      SameLookups(a[1..], b[1..]);
      assert a == [a[0]] + a[1..] && b == [b[0]] + b[1..];
    }
  }

  // ------------------------------------------------------------- subtree scans

  /** The files under a directory prefix. */
  function Under<C>(t: seq<File<C>>, prefix: string): seq<File<C>> {
    if t == [] then []
    else if prefix <= t[0].path then [t[0]] + Under(t[1..], prefix)
    else Under(t[1..], prefix)
  }

  /** The files whose paths are kept. */
  function Retain<C>(t: seq<File<C>>, keep: string -> bool): seq<File<C>> {
    if t == [] then []
    else if keep(t[0].path) then [t[0]] + Retain(t[1..], keep)
    else Retain(t[1..], keep)
  }

  lemma {:induction false} RetainKeeps<C>(t: seq<File<C>>, keep: string -> bool, path: string)
    requires Ordered(t)
    ensures Ordered(Retain(t, keep)) && forall f :: f in Retain(t, keep) ==> f in t
    ensures Lookup(Retain(t, keep), path) == if keep(path) then Lookup(t, path) else None
  {
    if t != [] {
      RetainKeeps(t[1..], keep, path);
      var rest := Retain(t[1..], keep);
      forall k | 0 <= k < |rest| ensures Less(t[0].path, rest[k].path) {
        assert rest[k] in rest && rest[k] in t[1..];
      }
      if t[0].path == path && !keep(path) {
        LessStrict(path, path);
        HeadFirst(t, path);
      }
    }
  }

  lemma {:induction false} UnderIsRetain<C>(t: seq<File<C>>, prefix: string)
    ensures Under(t, prefix) == Retain(t, (p: string) => prefix <= p)
  {
    if t != [] {
      UnderIsRetain(t[1..], prefix);
    }
  }

  lemma LookupUnder<C>(t: seq<File<C>>, prefix: string, path: string)
    requires Ordered(t)
    ensures Ordered(Under(t, prefix))
    ensures Lookup(Under(t, prefix), path) == if prefix <= path then Lookup(t, path) else None
  {
    UnderIsRetain(t, prefix);
    RetainKeeps(t, (p: string) => prefix <= p, path);
  }

  /** Two trees that agree below a prefix have the same subtree there. */
  lemma SameUnder<C>(a: seq<File<C>>, b: seq<File<C>>, prefix: string)
    requires Ordered(a) && Ordered(b)
    requires forall p :: prefix <= p ==> Lookup(a, p) == Lookup(b, p)
    ensures Under(a, prefix) == Under(b, prefix)
  {
    forall p ensures Lookup(Under(a, prefix), p) == Lookup(Under(b, prefix), p) {
      LookupUnder(a, prefix, p);
      LookupUnder(b, prefix, p);
    }
    LookupUnder(a, prefix, "");
    LookupUnder(b, prefix, "");
    SameLookups(Under(a, prefix), Under(b, prefix));
  }

  /** Every file of `s` put into `t`, in order. */
  function PutAll<C>(t: seq<File<C>>, s: seq<File<C>>): seq<File<C>> {
    if s == [] then t else Put(PutAll(t, s[..|s| - 1]), s[|s| - 1].path, s[|s| - 1].content)
  }

  lemma {:induction false} LookupAppend<C>(s: seq<File<C>>, f: File<C>, path: string)
    ensures Lookup(s + [f], path) ==
            if Lookup(s, path).Some? then Lookup(s, path) else if f.path == path then Some(f.content) else None
  {
    if s == [] {
      assert (s + [f])[1..] == [];
    } else {
      assert (s + [f])[1..] == s[1..] + [f];
      LookupAppend(s[1..], f, path);
    }
  }

  lemma {:induction false} LookupFound<C>(s: seq<File<C>>, path: string)
    requires Lookup(s, path).Some?
    ensures exists k :: 0 <= k < |s| && s[k].path == path
  {
    if s[0].path != path {
      LookupFound(s[1..], path);
    }
  }

  lemma {:induction false} LookupAt<C>(t: seq<File<C>>, k: nat)
    requires Ordered(t) && k < |t|
    ensures Lookup(t, t[k].path) == Some(t[k].content)
  {
    if k > 0 {
      LessStrict(t[0].path, t[k].path);
      LessStrict(t[0].path, t[0].path);
      LookupAt(t[1..], k - 1);
    }
  }

  /** In an ordered tree the last file is the only one under its path. */
  lemma LookupLast<C>(s: seq<File<C>>, path: string)
    requires Ordered(s) && s != []
    ensures var f := s[|s| - 1];
            && Lookup(s, path) == (if f.path == path then Some(f.content) else Lookup(s[..|s| - 1], path))
            && Lookup(s[..|s| - 1], f.path) == None
  {
    var init, f := s[..|s| - 1], s[|s| - 1];
    assert s == init + [f];
    LookupAppend(init, f, path);
    if Lookup(init, f.path).Some? {
      LookupFound(init, f.path);
      LessStrict(f.path, f.path);
      assert false;
    }
  }

  lemma {:induction false} LookupPutAll<C>(t: seq<File<C>>, s: seq<File<C>>, path: string)
    requires Ordered(t) && Ordered(s)
    ensures Ordered(PutAll(t, s))
    ensures Lookup(PutAll(t, s), path) == if Lookup(s, path).Some? then Lookup(s, path) else Lookup(t, path)
    decreases |s|
  {
    if s != [] {
      var init, f := s[..|s| - 1], s[|s| - 1];
      LookupPutAll(t, init, path);
      PutOrdered(PutAll(t, init), f.path, f.content);
      LookupPut(PutAll(t, init), f.path, f.content, path);
      LookupLast(s, path);
    }
  }

  lemma PrefixTail(prefix: string, s: string)
    requires prefix != "" && s != ""
    ensures prefix <= s <==> prefix[0] == s[0] && prefix[1..] <= s[1..]
  {
    assert prefix == [prefix[0]] + prefix[1..] && s == [s[0]] + s[1..];
  }

  lemma {:induction false} BeforePrefix(path: string, prefix: string)
    requires Less(path, prefix)
    ensures !(prefix <= path)
  {
    if path != "" && path[0] == prefix[0] {
      BeforePrefix(path[1..], prefix[1..]);
      PrefixTail(prefix, path);
    }
  }

  /** Paths with a common prefix are contiguous: past them, none has it any more. */
  lemma {:induction false} BeyondPrefix(a: string, b: string, prefix: string)
    requires Less(a, b) && !Less(a, prefix) && !(prefix <= a)
    ensures !(prefix <= b) && !Less(b, prefix)
  {
    if prefix != "" && a != "" && b != "" && a[0] == b[0] == prefix[0] {
      PrefixTail(prefix, a);
      PrefixTail(prefix, b);
      BeyondPrefix(a[1..], b[1..], prefix[1..]);
    }
  }

  lemma {:induction false} NothingBeyond<C>(t: seq<File<C>>, k: nat, prefix: string)
    requires Ordered(t) && k < |t| && !Less(t[k].path, prefix) && !(prefix <= t[k].path)
    ensures Under(t[k..], prefix) == []
    decreases |t| - k
  {
    if k + 1 < |t| {
      BeyondPrefix(t[k].path, t[k + 1].path, prefix);
      NothingBeyond(t, k + 1, prefix);
      assert t[k..][1..] == t[k + 1..];
    } else {
      assert t[k..][1..] == [];
    }
  }
}
