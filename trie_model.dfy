/**
 * The bit trie of src/3.ts as a value: a tree of nodes, each carrying the
 * character that leads to it and a pass-through count, with at most one
 * link per bit. This is the specification the `TrieNode` and `Trie` classes
 * of module TrieObjects are proved against.
 */
module TrieModel {
  import opened Wrappers
  import opened StatusReadings

  /** `Nil` is a missing link; a `Node` carries its value, count and two links. */
  datatype Tree = Nil | Node(value: Option<char>, count: nat, zero: Tree, one: Tree)

  /** The node `new TrieNode()` builds for the root of a `Trie`: no value, count 0. */
  function Root(): Tree { Node(None, 0, Nil, Nil) }

  /** A node created for character b, before anything is inserted below it. */
  function Leaf(b: char): Tree { Node(Some(b), 0, Nil, Nil) }

  /** The link of t under bit b (`Nil` for a missing node). */
  function Child(t: Tree, b: char): Tree {
    if t.Nil? then Nil else if b == '0' then t.zero else t.one
  }

  /** t with its link under bit b replaced by c. */
  function WithChild(t: Tree, b: char, c: Tree): (r: Tree)
    requires t.Node?
    ensures r.Node? && r.value == t.value && r.count == t.count
    ensures Child(r, b) == c && (b == '0' ==> r.one == t.one) && (b != '0' ==> r.zero == t.zero)
  {
    if b == '0' then t.(zero := c) else t.(one := c)
  }

  /**
   * `TrieNode.insert`: the node counts one more sequence and, when the
   * sequence is non-empty, its tail goes into the link for its first bit;
   * a missing link is filled by a node made as the constructor makes it.
   */
  function Insert(t: Tree, s: string): (r: Tree)
    requires t.Node? && IsBinary(s)
    ensures r.Node? && r.value == t.value && r.count == t.count + 1
    decreases |s|, 1
  {
    var bumped := t.(count := t.count + 1);
    if |s| == 0 then bumped
    else
      var c := Child(t, s[0]);
      WithChild(bumped, s[0], if c.Node? then Insert(c, s[1..]) else Spawn(s[0], s[1..]))
  }

  /**
   * `new TrieNode(value, nextSequence)`: a node for b with count 0, into which
   * the rest is inserted only when it is non-empty (the empty string is falsy),
   * so the node made for the last character of a sequence keeps count 0.
   */
  function Spawn(b: char, rest: string): (r: Tree)
    requires IsBinary(rest)
    ensures r.Node? && r.value == Some(b)
    decreases |rest|, 2
  {
    if |rest| > 0 then Insert(Leaf(b), rest) else Leaf(b)
  }

  /** The node reached from t by following the links spelled by p (`Nil` if there is none). */
  function At(t: Tree, p: string): Tree
    decreases |p|
  {
    if |p| == 0 then t
    else if !IsBit(p[0]) then Nil
    else At(Child(t, p[0]), p[1..])
  }

  predicate IsPrefix(p: string, s: string) { |p| <= |s| && s[..|p|] == p }

  /**
   * One insertion touches exactly the nodes along s: a node whose path is not
   * a prefix of s is unchanged; every node along s exists afterwards, with one
   * more count if it existed, and otherwise is new with count 1 — or 0 at the
   * very end of s.
   */
  lemma {:induction false} InsertAt(t: Tree, s: string, p: string)
    requires t.Node? && IsBinary(s)
    ensures !IsPrefix(p, s) ==> At(Insert(t, s), p) == At(t, p)
    ensures IsPrefix(p, s) ==>
              && At(Insert(t, s), p).Node?
              && At(Insert(t, s), p).count == (if At(t, p).Node? then At(t, p).count + 1
                                               else if |p| < |s| then 1 else 0)
    decreases |s|
  {
    var r := Insert(t, s);
    if |p| == 0 {
      assert IsPrefix(p, s);
    } else if |s| == 0 {
      assert Child(r, p[0]) == Child(t, p[0]);
    } else if !IsBit(p[0]) {
      assert !IsPrefix(p, s) by { if |p| <= |s| { assert s[..|p|][0] == s[0]; } }
    } else if p[0] != s[0] {
      assert Child(r, p[0]) == Child(t, p[0]);
      assert !IsPrefix(p, s) by { if |p| <= |s| { assert s[..|p|][0] == s[0]; } }
    } else {
      var b, rest, q := s[0], s[1..], p[1..];
      var c := Child(t, b);
      assert IsPrefix(p, s) <==> IsPrefix(q, rest) by {
        if IsPrefix(p, s) { assert rest[..|q|] == s[..|p|][1..]; }
        if IsPrefix(q, rest) { assert s[..|p|] == [b] + rest[..|q|]; }
      }
      assert At(r, p) == At(Child(r, b), q);
      assert At(t, p) == At(c, q);
      if c.Node? {
        InsertAt(c, rest, q);
      } else {
        NilAt(q);
        if |rest| > 0 {
          InsertAt(Leaf(b), rest, q);
          assert |q| > 0 ==> At(Leaf(b), q) == Nil;
        }
      }
    }
  }

  /** Insertion never removes a node or lowers a count. */
  lemma InsertKeeps(t: Tree, s: string, p: string)
    requires t.Node? && IsBinary(s) && At(t, p).Node?
    ensures At(Insert(t, s), p).Node? && At(Insert(t, s), p).count >= At(t, p).count
  {
    InsertAt(t, s, p);
  }

  /** `new Trie(sequences)`: every sequence inserted into a fresh root, in order. */
  function Build(L: seq<string>): (r: Tree)
    requires AllBinary(L)
    ensures r.Node? && r.value == None
  {
    if |L| == 0 then Root() else Insert(Build(L[..|L| - 1]), L[|L| - 1])
  }

  /** How many of L have prefix p. */
  function NumPrefixed(L: seq<string>, p: string): nat {
    if |L| == 0 then 0
    else NumPrefixed(L[..|L| - 1], p) + (if IsPrefix(p, L[|L| - 1]) then 1 else 0)
  }

  /** The first of L that has prefix p, if any. */
  function FirstWithPrefix(L: seq<string>, p: string): Option<string> {
    if |L| == 0 then None
    else if FirstWithPrefix(L[..|L| - 1], p).Some? then FirstWithPrefix(L[..|L| - 1], p)
    else if IsPrefix(p, L[|L| - 1]) then Some(L[|L| - 1])
    else None
  }

  /** The first string with prefix p exists exactly when some string has it, and it is one of L with that prefix. */
  lemma {:induction false} FirstWithPrefixFacts(L: seq<string>, p: string)
    ensures FirstWithPrefix(L, p).Some? <==> NumPrefixed(L, p) > 0
    ensures NumPrefixed(L, p) > 0 <==> exists k :: 0 <= k < |L| && IsPrefix(p, L[k])
    ensures FirstWithPrefix(L, p).Some? ==> FirstWithPrefix(L, p).value in L && IsPrefix(p, FirstWithPrefix(L, p).value)
  {
    if |L| > 0 {
      var I := L[..|L| - 1];
      FirstWithPrefixFacts(I, p);
      if NumPrefixed(L, p) > 0 && !IsPrefix(p, L[|L| - 1]) {
        var k :| 0 <= k < |I| && IsPrefix(p, I[k]);
        assert L[k] == I[k];
      }
      if exists k :: 0 <= k < |L| && IsPrefix(p, L[k]) {
        var k :| 0 <= k < |L| && IsPrefix(p, L[k]);
        if k < |I| {
          assert I[k] == L[k];
        }
      }
    }
  }

  /**
   * The counting theorem for `new Trie(L)`: a node exists for p exactly when p
   * is empty (the root) or a prefix of some inserted string, and its count is
   * the number of strings with that prefix, less one when the first of them is
   * p itself (that node was created with count 0).
   */
  lemma {:induction false} BuildAt(L: seq<string>, p: string)
    requires AllBinary(L)
    ensures At(Build(L), p).Node? <==> |p| == 0 || NumPrefixed(L, p) > 0
    ensures At(Build(L), p).Node? ==>
              At(Build(L), p).count == NumPrefixed(L, p) - (if |p| > 0 && FirstWithPrefix(L, p) == Some(p) then 1 else 0)
  {
    if |L| == 0 {
      if |p| > 0 && IsBit(p[0]) {
        NilAt(p[1..]);
      }
    } else {
      var I, s := L[..|L| - 1], L[|L| - 1];
      assert AllBinary(I);
      BuildAt(I, p);
      InsertAt(Build(I), s, p);
      FirstWithPrefixFacts(I, p);
      if IsPrefix(p, s) && FirstWithPrefix(I, p).None? && |p| == |s| {
        assert s == p by { assert s == s[..|p|]; }
      }
      if IsPrefix(p, s) && FirstWithPrefix(I, p).None? && |p| < |s| {
        assert s != p;
      }
    }
  }

  lemma {:induction false} NilAt(p: string)
    ensures At(Nil, p) == Nil
    decreases |p|
  {
    if |p| > 0 && IsBit(p[0]) {
      NilAt(p[1..]);
    }
  }

  /** The root of `new Trie(L)` counts every inserted string. */
  lemma RootCount(L: seq<string>)
    requires AllBinary(L)
    ensures Build(L).count == |L|
  {
    BuildAt(L, []);
    NumPrefixedEmpty(L);
  }

  lemma {:induction false} NumPrefixedEmpty(L: seq<string>)
    ensures NumPrefixed(L, []) == |L|
  {
    if |L| > 0 {
      NumPrefixedEmpty(L[..|L| - 1]);
    }
  }

  /**
   * With inserted strings all of length n, a node above the last level counts
   * the strings with its prefix, and a node at depth n counts the copies of
   * its string minus one.
   */
  lemma UniformCounts(L: seq<string>, n: nat, p: string)
    requires AllBinary(L) && forall k :: 0 <= k < |L| ==> |L[k]| == n
    requires 0 < |p| && At(Build(L), p).Node?
    ensures |p| < n ==> At(Build(L), p).count == NumPrefixed(L, p)
    ensures |p| == n ==> At(Build(L), p).count == NumPrefixed(L, p) - 1
  {
    BuildAt(L, p);
    FirstWithPrefixFacts(L, p);
    var f := FirstWithPrefix(L, p).value;
    if |p| == n {
      assert f == p by { assert f == f[..|p|]; }
    }
  }

  /** Every link is labelled with the bit that leads to it. */
  predicate Labelled(t: Tree) {
    t.Node? ==>
      && (t.zero.Node? ==> t.zero.value == Some('0') && Labelled(t.zero))
      && (t.one.Node? ==> t.one.value == Some('1') && Labelled(t.one))
  }

  lemma {:induction false} InsertLabelled(t: Tree, s: string)
    requires t.Node? && IsBinary(s) && Labelled(t)
    ensures Labelled(Insert(t, s))
    decreases |s|
  {
    if |s| > 0 {
      var c := Child(t, s[0]);
      if c.Node? {
        InsertLabelled(c, s[1..]);
      } else if |s| > 1 {
        InsertLabelled(Leaf(s[0]), s[1..]);
      }
    }
  }

  lemma {:induction false} BuildLabelled(L: seq<string>)
    requires AllBinary(L)
    ensures Labelled(Build(L))
  {
    if |L| > 0 {
      assert AllBinary(L[..|L| - 1]);
      BuildLabelled(L[..|L| - 1]);
      InsertLabelled(Build(L[..|L| - 1]), L[|L| - 1]);
    }
  }

  /** In a labelled tree the node for a non-empty path p carries the last character of p. */
  lemma {:induction false} AtLabel(t: Tree, p: string)
    requires Labelled(t) && |p| > 0 && At(t, p).Node?
    ensures At(t, p).value == Some(p[|p| - 1])
    decreases |p|
  {
    var c := Child(t, p[0]);
    if |p| > 1 {
      AtLabel(c, p[1..]);
      assert p[1..][|p| - 2] == p[|p| - 1];
    }
  }

  /** Following p then bit b is following p + [b]. */
  lemma {:induction false} AtSnoc(t: Tree, p: string, b: char)
    requires IsBinary(p) && IsBit(b)
    ensures At(t, p + [b]) == Child(At(t, p), b)
    decreases |p|
  {
    if |p| == 0 {
      assert At(t, [b]) == At(Child(t, b), []);
    } else {
      assert (p + [b])[1..] == p[1..] + [b];
      AtSnoc(Child(t, p[0]), p[1..], b);
    }
  }

  /** The node's existing links in `Object.values` order: '0' before '1'. */
  function Links(t: Tree): seq<Tree>
    requires t.Node?
  {
    (if t.zero.Node? then [t.zero] else []) + (if t.one.Node? then [t.one] else [])
  }

  predicate HasLinks(t: Tree) { t.Node? && (t.zero.Node? || t.one.Node?) }

  /** `getLinksAsc`: the links sorted by their comparator. */
  function LinksAsc(t: Tree): (r: seq<Tree>)
    requires t.Node?
    ensures |r| == |Links(t)| && forall l :: l in r <==> l in Links(t)
  {
    if t.zero.Node? && t.one.Node? && t.one.count < t.zero.count then [t.one, t.zero] else Links(t)
  }

  /**
   * `getLinksAsc` returns the node's links, each once, in ascending order of
   * count, the '0' link first on equal counts.
   */
  lemma LinksAscSorted(t: Tree)
    requires t.Node?
    ensures multiset(LinksAsc(t)) == multiset(Links(t))
    ensures |LinksAsc(t)| == |Links(t)| && (|LinksAsc(t)| > 0 <==> HasLinks(t))
    ensures forall i, j :: 0 <= i < j < |LinksAsc(t)| ==> LinksAsc(t)[i].count <= LinksAsc(t)[j].count
    ensures |LinksAsc(t)| == 2 && LinksAsc(t)[0].count == LinksAsc(t)[1].count ==> LinksAsc(t)[0] == t.zero
  {
  }

  /** `getMostPopularLink`: the last of the sorted links — a link of highest count, the '1' link on a tie. */
  function MostPopularLink(t: Tree): (r: Tree)
    requires HasLinks(t)
    ensures r.Node? && (r == t.zero || r == t.one)
    ensures forall l :: l in Links(t) ==> l.count <= r.count
    ensures t.zero.Node? && t.one.Node? && t.zero.count == t.one.count ==> r == t.one
  {
    var links := LinksAsc(t);
    links[|links| - 1]
  }

  /** `getLeastPopularLink`: the first of the sorted links — a link of lowest count, the '0' link on a tie. */
  function LeastPopularLink(t: Tree): (r: Tree)
    requires HasLinks(t)
    ensures r.Node? && (r == t.zero || r == t.one)
    ensures forall l :: l in Links(t) ==> r.count <= l.count
    ensures t.zero.Node? && t.one.Node? && t.zero.count == t.one.count ==> r == t.zero
  {
    LinksAsc(t)[0]
  }

  function PopularLink(t: Tree, most: bool): (r: Tree)
    requires HasLinks(t)
    ensures r.Node? && (r == t.zero || r == t.one)
  {
    if most then MostPopularLink(t) else LeastPopularLink(t)
  }

  /**
   * `getMostPopularPath` (most) and `getLeastPopularPath` (not most): from t,
   * step to the chosen link until a node without links.
   */
  function PopularPath(t: Tree, most: bool): (r: seq<Tree>)
    ensures |r| == 0 <==> !HasLinks(t)
    ensures forall i :: 0 <= i < |r| ==> r[i].Node?
    decreases t
  {
    if !HasLinks(t) then [] else var c := PopularLink(t, most); [c] + PopularPath(c, most)
  }

  predicate IsLink(parent: Tree, c: Tree) { parent.Node? && c.Node? && (c == parent.zero || c == parent.one) }

  /** Step i of a path leaves a node with links by its chosen link. */
  predicate ChosenStep(path: seq<Tree>, i: nat, most: bool)
    requires 0 < i < |path|
  {
    HasLinks(path[i - 1]) && path[i] == PopularLink(path[i - 1], most)
  }

  /**
   * Every step of a popular path is a link of the node before it, each the
   * chosen link, and the walk stops exactly at a node without links.
   */
  lemma {:induction false} PopularPathSteps(t: Tree, most: bool)
    ensures var path := PopularPath(t, most);
            && (|path| == 0 <==> !HasLinks(t))
            && (|path| > 0 ==> path[0] == PopularLink(t, most) && !HasLinks(path[|path| - 1]))
            && (forall i :: 0 < i < |path| ==> ChosenStep(path, i, most))
    decreases t
  {
    if HasLinks(t) {
      var c := PopularLink(t, most);
      PopularPathSteps(c, most);
      var path := PopularPath(t, most);
      assert path[1..] == PopularPath(c, most);
      forall i | 0 < i < |path| ensures ChosenStep(path, i, most) {
        if i > 1 {
          assert ChosenStep(path[1..], i - 1, most);
        }
      }
    }
  }

  /** A popular path walks down links only. */
  lemma PopularPathLinks(t: Tree, most: bool)
    ensures var path := PopularPath(t, most);
            (|path| > 0 ==> IsLink(t, path[0])) && forall i :: 0 < i < |path| ==> IsLink(path[i - 1], path[i])
  {
    PopularPathSteps(t, most);
  }

  /** The joined values of a path of nodes (`undefined` joins as nothing). */
  function Spell(path: seq<Tree>): (r: string)
    ensures |r| <= |path|
  {
    if |path| == 0 then [] else (if path[0].Node? && path[0].value.Some? then [path[0].value.value] else []) + Spell(path[1..])
  }

  /**
   * With inserted strings all of length n, the popular path from the node of
   * a prefix p has n - |p| steps and completes p to one of the inserted strings.
   */
  lemma {:induction false} PathFrom(L: seq<string>, n: nat, p: string, most: bool)
    requires AllBinary(L) && |L| > 0 && forall k :: 0 <= k < |L| ==> |L[k]| == n
    requires IsBinary(p) && |p| <= n && At(Build(L), p).Node?
    ensures |PopularPath(At(Build(L), p), most)| == n - |p|
    ensures p + Spell(PopularPath(At(Build(L), p), most)) in L
    decreases n - |p|
  {
    var node := At(Build(L), p);
    if |p| == n {
      LastLevel(L, n, p);
      assert p + Spell([]) == p;
    } else {
      InnerLevel(L, n, p);
      var c := PopularLink(node, most);
      var b := StepBit(L, p, c);
      var q := p + [b];
      PathFrom(L, n, q, most);
      SpellStep(node, most, p, b);
    }
  }

  /** One step of a popular path adds the chosen link's bit to the spelled string. */
  lemma SpellStep(t: Tree, most: bool, p: string, b: char)
    requires HasLinks(t) && PopularLink(t, most).value == Some(b)
    ensures var c := PopularLink(t, most);
            && |PopularPath(t, most)| == 1 + |PopularPath(c, most)|
            && p + Spell(PopularPath(t, most)) == (p + [b]) + Spell(PopularPath(c, most))
  {
    var c := PopularLink(t, most);
    var rest := PopularPath(c, most);
    assert ([c] + rest)[1..] == rest;
    assert p + ([b] + Spell(rest)) == (p + [b]) + Spell(rest);
  }

  /** With strings of length n, a node at depth n has no links, and its path is one of the strings. */
  lemma LastLevel(L: seq<string>, n: nat, p: string)
    requires AllBinary(L) && |L| > 0 && forall k :: 0 <= k < |L| ==> |L[k]| == n
    requires IsBinary(p) && |p| == n && At(Build(L), p).Node?
    ensures !HasLinks(At(Build(L), p)) && p in L
  {
    var T := Build(L);
    BuildAt(L, p);
    FirstWithPrefixFacts(L, p);
    AtSnoc(T, p, '0');
    BuildAt(L, p + ['0']);
    FirstWithPrefixFacts(L, p + ['0']);
    AtSnoc(T, p, '1');
    BuildAt(L, p + ['1']);
    FirstWithPrefixFacts(L, p + ['1']);
    if |p| == 0 {
      assert L[0] == [];
    } else {
      var k :| 0 <= k < |L| && IsPrefix(p, L[k]);
      assert L[k] == p by { assert L[k] == L[k][..|p|]; }
    }
  }

  /** With strings of length n, a node above depth n has a link. */
  lemma InnerLevel(L: seq<string>, n: nat, p: string)
    requires AllBinary(L) && |L| > 0 && forall k :: 0 <= k < |L| ==> |L[k]| == n
    requires IsBinary(p) && |p| < n && At(Build(L), p).Node?
    ensures HasLinks(At(Build(L), p))
  {
    var T := Build(L);
    BuildAt(L, p);
    FirstWithPrefixFacts(L, p);
    var k: nat :| k < |L| && (|p| == 0 || IsPrefix(p, L[k]));
    var b := L[k][|p|];
    assert IsBit(b);
    assert IsPrefix(p + [b], L[k]) by {
      assert L[k][..|p| + 1] == L[k][..|p|] + [b];
    }
    AtSnoc(T, p, b);
    BuildAt(L, p + [b]);
    FirstWithPrefixFacts(L, p + [b]);
  }

  /** A link taken from the node of p is the node of p extended by the link's own value. */
  lemma StepBit(L: seq<string>, p: string, c: Tree) returns (b: char)
    requires AllBinary(L) && IsBinary(p) && HasLinks(At(Build(L), p))
    requires c == At(Build(L), p).zero || c == At(Build(L), p).one
    requires c.Node?
    ensures IsBit(b) && IsBinary(p + [b])
    ensures c == At(Build(L), p + [b]) && c.value == Some(b)
  {
    var T := Build(L);
    b := if c == At(T, p).zero then '0' else '1';
    AtSnoc(T, p, b);
    BuildLabelled(L);
    AtLabel(T, p + [b]);
  }

  /**
   * The rating extractors on `new Trie(L)` with L non-empty and of one length n:
   * either path has n steps and spells one of the inserted strings.
   */
  lemma UniformRating(L: seq<string>, n: nat, most: bool)
    requires AllBinary(L) && |L| > 0 && forall k :: 0 <= k < |L| ==> |L[k]| == n
    ensures |PopularPath(Build(L), most)| == n
    ensures Spell(PopularPath(Build(L), most)) in L
  {
    PathFrom(L, n, [], most);
    assert [] + Spell(PopularPath(Build(L), most)) == Spell(PopularPath(Build(L), most));
  }

  /**
   * The bit the puzzle's bit criteria keep among the strings sharing a
   * prefix, from how many of them continue with '0' (z) and with '1' (o):
   * the more common bit, '1' on a tie, for the oxygen generator rating
   * (most), and the less common bit, '0' on a tie, for the CO2 scrubber
   * rating. A bit no string continues with is never kept.
   */
  function Keep(z: nat, o: nat, most: bool): (b: char)
    requires z + o > 0
    ensures b == '0' || b == '1'
    ensures b == '0' ==> z > 0 && (most ==> z > o) && (!most ==> o == 0 || z <= o)
    ensures b == '1' ==> o > 0 && (most ==> z == 0 || o >= z) && (!most ==> z == 0 || o < z)
  {
    if z == 0 then '1'
    else if o == 0 then '0'
    else if most then (if z > o then '0' else '1')
    else (if z <= o then '0' else '1')
  }

  /**
   * The rating found by filtering on exact counts: from prefix p, keep the
   * bit the criteria choose among the strings with prefix p, position by
   * position, up to length n or until no string continues.
   */
  function CriteriaRating(L: seq<string>, n: nat, p: string, most: bool): (r: string)
    ensures |p| + |r| <= n || |r| == 0
    ensures NumPrefixed(L, p) > 0 ==> NumPrefixed(L, p + r) > 0
    decreases n - |p|
  {
    if n <= |p| then (assert p + [] == p; [])
    else
      var z, o := NumPrefixed(L, p + ['0']), NumPrefixed(L, p + ['1']);
      if z + o == 0 then (assert p + [] == p; [])
      else
        var b := Keep(z, o, most);
        var rest := CriteriaRating(L, n, p + [b], most);
        assert p + ([b] + rest) == (p + [b]) + rest;
        [b] + rest
  }

  /** The strings with prefix p continue with '0' or with '1' when they are longer than p. */
  lemma {:induction false} NumPrefixedSplit(L: seq<string>, n: nat, p: string)
    requires AllBinary(L) && forall k :: 0 <= k < |L| ==> |L[k]| == n
    requires |p| < n
    ensures NumPrefixed(L, p) == NumPrefixed(L, p + ['0']) + NumPrefixed(L, p + ['1'])
  {
    if |L| > 0 {
      var I, s := L[..|L| - 1], L[|L| - 1];
      assert AllBinary(I) && forall k :: 0 <= k < |I| ==> |I[k]| == n;
      NumPrefixedSplit(I, n, p);
      assert IsBit(s[|p|]);
      assert s[..|p| + 1] == s[..|p|] + [s[|p|]];
    }
  }

  /**
   * For strings of one length n the greedy descent agrees with filtering on
   * exact counts, although the nodes at depth n count one string too few:
   * from the node of a prefix p above depth n, the popular link is the node
   * of p extended by the bit the criteria keep, and the spelled path grows
   * by that bit.
   */
  lemma UniformStep(L: seq<string>, n: nat, p: string, most: bool)
    requires AllBinary(L) && forall k :: 0 <= k < |L| ==> |L[k]| == n
    requires IsBinary(p) && |p| < n && NumPrefixed(L, p) > 0
    ensures NumPrefixed(L, p + ['0']) + NumPrefixed(L, p + ['1']) > 0
    ensures var b := Keep(NumPrefixed(L, p + ['0']), NumPrefixed(L, p + ['1']), most);
            && HasLinks(At(Build(L), p))
            && PopularLink(At(Build(L), p), most) == At(Build(L), p + [b])
            && Spell(PopularPath(At(Build(L), p), most)) == [b] + Spell(PopularPath(At(Build(L), p + [b]), most))
  {
    var T := Build(L);
    NumPrefixedSplit(L, n, p);
    var z, o := NumPrefixed(L, p + ['0']), NumPrefixed(L, p + ['1']);
    BuildAt(L, p);
    FirstWithPrefixFacts(L, p);
    InnerLevel(L, n, p);
    AtSnoc(T, p, '0');
    AtSnoc(T, p, '1');
    BuildAt(L, p + ['0']);
    BuildAt(L, p + ['1']);
    if z > 0 {
      UniformCounts(L, n, p + ['0']);
    }
    if o > 0 {
      UniformCounts(L, n, p + ['1']);
    }
    var b := Keep(z, o, most);
    var c := PopularLink(At(T, p), most);
    assert c == At(T, p + [b]);
    BuildLabelled(L);
    AtLabel(T, p + [b]);
    var rest := PopularPath(c, most);
    assert PopularPath(At(T, p), most) == [c] + rest;
    assert ([c] + rest)[1..] == rest;
  }

  /**
   * For strings of one length n, the path spelled from the node of any prefix
   * p held by some string is the rating found by filtering on exact counts.
   */
  lemma {:induction false} CriteriaFrom(L: seq<string>, n: nat, p: string, most: bool)
    requires AllBinary(L) && forall k :: 0 <= k < |L| ==> |L[k]| == n
    requires IsBinary(p) && |p| <= n && NumPrefixed(L, p) > 0
    ensures Spell(PopularPath(At(Build(L), p), most)) == CriteriaRating(L, n, p, most)
    decreases n - |p|
  {
    if |p| == n {
      BuildAt(L, p);
      FirstWithPrefixFacts(L, p);
      LastLevel(L, n, p);
    } else {
      UniformStep(L, n, p, most);
      var b := Keep(NumPrefixed(L, p + ['0']), NumPrefixed(L, p + ['1']), most);
      CriteriaFrom(L, n, p + [b], most);
    }
  }

  /**
   * The ratings of `new Trie(L)` for non-empty L of one length are those of
   * the puzzle's bit criteria applied to exact counts, position by position.
   */
  lemma UniformCriteria(L: seq<string>, n: nat, most: bool)
    requires AllBinary(L) && |L| > 0 && forall k :: 0 <= k < |L| ==> |L[k]| == n
    ensures NumPrefixed(L, []) > 0
    ensures Labelled(Build(L)) && Rating(Build(L), most) == CriteriaRating(L, n, [], most)
  {
    NumPrefixedEmpty(L);
    BuildLabelled(L);
    CriteriaFrom(L, n, [], most);
  }

  /** In a labelled tree a popular path spells a binary string with one bit per step. */
  lemma {:induction false} SpellBinary(t: Tree, most: bool)
    requires Labelled(t)
    ensures IsBinary(Spell(PopularPath(t, most)))
    ensures |Spell(PopularPath(t, most))| == |PopularPath(t, most)|
    decreases t
  {
    if HasLinks(t) {
      var c := PopularLink(t, most);
      SpellBinary(c, most);
      var b := if c == t.zero then '0' else '1';
      SpellStep(t, most, [], b);
      var rest := Spell(PopularPath(c, most));
      assert [] + Spell(PopularPath(t, most)) == Spell(PopularPath(t, most));
      assert Spell(PopularPath(t, most)) == [b] + rest;
      assert IsBinary([b] + rest) by {
        forall i | 0 <= i < |[b] + rest| ensures IsBit(([b] + rest)[i]) {
          if i > 0 {
            assert ([b] + rest)[i] == rest[i - 1];
          }
        }
      }
    }
  }

  /** `getOxygenGeneratorRating` (most) and `getCO2ScrubberRating` (not most). */
  function Rating(t: Tree, most: bool): (r: string)
    requires Labelled(t)
    ensures IsBinary(r) && |r| == |PopularPath(t, most)|
  {
    SpellBinary(t, most);
    Spell(PopularPath(t, most))
  }

  /** `getLifeSupportRating`: the two ratings read in base 2 and multiplied. */
  function LifeSupportRating(t: Tree): (r: Option<nat>)
    requires Labelled(t)
    ensures r == None <==> !HasLinks(t)
  {
    Times(BitsToNumber(Rating(t, true)), BitsToNumber(Rating(t, false)))
  }

  /**
   * For inserted strings of one positive length the life-support rating is
   * the product of two of the inserted strings read in base 2; with length 0
   * both ratings are empty and the product is `NaN`.
   */
  lemma LifeSupportOfUniform(L: seq<string>, n: nat)
    requires AllBinary(L) && |L| > 0 && forall k :: 0 <= k < |L| ==> |L[k]| == n
    ensures Labelled(Build(L))
    ensures n == 0 ==> LifeSupportRating(Build(L)) == None
    ensures n > 0 ==> (exists ox, co2 :: ox in L && co2 in L && IsBinary(ox) && IsBinary(co2) &&
                                        LifeSupportRating(Build(L)) == Some(BinaryValue(ox) * BinaryValue(co2)))
  {
    BuildLabelled(L);
    UniformRating(L, n, true);
    UniformRating(L, n, false);
    var ox, co2 := Rating(Build(L), true), Rating(Build(L), false);
    assert ox in L && co2 in L && |ox| == |co2| == n;
    if n > 0 {
      assert BitsToNumber(ox) == Some(BinaryValue(ox)) && BitsToNumber(co2) == Some(BinaryValue(co2));
      assert LifeSupportRating(Build(L)) == Some(BinaryValue(ox) * BinaryValue(co2));
    }
  }

  /** One more string adds itself to the count of each of its prefixes. */
  lemma NumPrefixedSnoc(L: seq<string>, s: string, p: string)
    ensures NumPrefixed(L + [s], p) == NumPrefixed(L, p) + if IsPrefix(p, s) then 1 else 0
  {
    assert (L + [s])[..|L|] == L;
  }

  /**
   * The trie of "00", "0", "1", "1": the node for "0" was first made as the
   * inner node of "00" and counts both strings, while the node for "1" was
   * made as a last character with count 0 and counts only the second "1".
   */
  lemma MixedLengthsBuild(L: seq<string>)
    requires L == ["00", "0", "1", "1"]
    ensures AllBinary(L)
    ensures Build(L) == Node(None, 4, Node(Some('0'), 2, Leaf('0'), Nil), Node(Some('1'), 1, Nil, Nil))
  {
    assert AllBinary(L) by { assert IsBinary(L[0]) && IsBinary(L[1]) && IsBinary(L[2]) && IsBinary(L[3]); }
    assert L[..3][..2][..1] == ["00"] && L[..3][..2][..1][..0] == [];
    assert L[..3][..2] == ["00", "0"];
    assert L[..3] == ["00", "0", "1"];
    assert Spawn('0', "0") == Node(Some('0'), 1, Leaf('0'), Nil);
    assert Build(["00"]) == Node(None, 1, Node(Some('0'), 1, Leaf('0'), Nil), Nil);
    assert Build(["00", "0"]) == Node(None, 2, Node(Some('0'), 2, Leaf('0'), Nil), Nil);
    assert Build(["00", "0", "1"]) == Node(None, 3, Node(Some('0'), 2, Leaf('0'), Nil), Leaf('1'));
  }

  /** Among "00", "0", "1", "1" two strings start with '0' and two with '1', and none continues after '1'. */
  lemma MixedLengthsPrefixes(L: seq<string>)
    requires L == ["00", "0", "1", "1"]
    ensures NumPrefixed(L, "0") == 2 && NumPrefixed(L, "1") == 2
    ensures NumPrefixed(L, "10") == 0 && NumPrefixed(L, "11") == 0
  {
    assert L == [] + ["00"] + ["0"] + ["1"] + ["1"];
    forall p | p in ["0", "1", "10", "11"]
      ensures NumPrefixed(L, p) == (if IsPrefix(p, "00") then 1 else 0) + (if IsPrefix(p, "0") then 1 else 0)
                                   + (if IsPrefix(p, "1") then 1 else 0) + (if IsPrefix(p, "1") then 1 else 0)
    {
      NumPrefixedSnoc([], "00", p);
      NumPrefixedSnoc([] + ["00"], "0", p);
      NumPrefixedSnoc([] + ["00"] + ["0"], "1", p);
      NumPrefixedSnoc([] + ["00"] + ["0"] + ["1"], "1", p);
    }
    assert IsPrefix("0", "00") && IsPrefix("0", "0") && IsPrefix("1", "1");
  }

  /**
   * With strings of different lengths the count-0 node matters: for "00",
   * "0", "1", "1" the exact counts tie at 2 and 2, so filtering on exact
   * counts keeps '1', but the trie's '1' node counts 1 against the '0'
   * node's 2 and the oxygen generator rating comes out as "00".
   */
  lemma MixedLengthsRating(L: seq<string>)
    requires L == ["00", "0", "1", "1"]
    ensures AllBinary(L) && Labelled(Build(L))
    ensures NumPrefixed(L, "0") == NumPrefixed(L, "1") == 2 && CriteriaRating(L, 2, [], true) == "1"
    ensures Build(L).zero.Node? && Build(L).zero.count == 2 && Build(L).one.Node? && Build(L).one.count == 1
    ensures Rating(Build(L), true) == "00"
  {
    MixedLengthsBuild(L);
    MixedLengthsPrefixes(L);
    BuildLabelled(L);
    var T := Build(L);
    assert PopularPath(T.zero, true) == [T.zero.zero];
    assert PopularPath(T, true) == [T.zero, T.zero.zero];
    assert Spell([T.zero, T.zero.zero]) == "00";
    assert [] + ['1'] == "1" && [] + ['0'] == "0";
    assert "1" + ['0'] == "10" && "1" + ['1'] == "11";
  }
}
