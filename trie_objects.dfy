/**
 * The `TrieNode` and `Trie` classes of src/3.ts as heap objects. A node's
 * `links` record, whose keys are the bits '0' and '1', is held as the two
 * fields `zero` and `one`. Every node carries a ghost `Model`, the
 * TrieModel.Tree it stands for, and a ghost footprint `Repr`.
 */
module TrieObjects {
  import opened Wrappers
  import opened StatusReadings
  import TrieModel

  class TrieNode {
    var zero: TrieNode?
    var one: TrieNode?
    var count: nat
    const value: Option<char>
    ghost var Model: TrieModel.Tree
    ghost var Repr: set<object>

    /** The node and its links form a tree with disjoint footprints, matching `Model`. */
    ghost predicate Valid()
      reads this, Repr
      decreases Repr
    {
      && this in Repr
      && (zero != null ==>
            zero in Repr && zero.Repr <= Repr && this !in zero.Repr && zero.Valid() && zero.value == Some('0'))
      && (one != null ==>
            one in Repr && one.Repr <= Repr && this !in one.Repr && one.Valid() && one.value == Some('1'))
      && (zero != null && one != null ==> zero.Repr !! one.Repr)
      && Model == TrieModel.Node(value, count, LinkModel(zero), LinkModel(one))
    }

    /** The model of a valid node has every link labelled with its bit. */
    lemma ModelLabelled()
      requires Valid()
      ensures TrieModel.Labelled(Model)
      decreases Repr
    {
      if zero != null {
        zero.ModelLabelled();
      }
      if one != null {
        one.ModelLabelled();
      }
    }

    /**
     * `new TrieNode(value, nextSequence)`: no links and count 0; the sequence
     * is inserted only when it is non-empty.
     */
    constructor (value: Option<char>, nextSequence: string)
      requires IsBinary(nextSequence)
      ensures Valid() && fresh(Repr) && this.value == value
      ensures Model == if |nextSequence| > 0 then TrieModel.Insert(TrieModel.Node(value, 0, TrieModel.Nil, TrieModel.Nil), nextSequence)
                       else TrieModel.Node(value, 0, TrieModel.Nil, TrieModel.Nil)
      decreases |nextSequence|, 2
    {
      this.value := value;
      zero := null;
      one := null;
      count := 0;
      Model := TrieModel.Node(value, 0, TrieModel.Nil, TrieModel.Nil);
      Repr := {this};
      new;
      if |nextSequence| > 0 {
        Insert(nextSequence);
      }
    }

    /** `insert`: the node and its model take the sequence as TrieModel.Insert says. */
    method Insert(sequence: string)
      requires Valid() && IsBinary(sequence)
      modifies Repr
      ensures Valid() && fresh(Repr - old(Repr))
      ensures Model == TrieModel.Insert(old(Model), sequence)
      decreases |sequence|, 1
    {
      count := count + 1;
      if |sequence| > 0 && sequence[0] == '0' {
        zero := Descend(zero, '0', sequence[1..]);
        Repr := Repr + zero.Repr;
      } else if |sequence| > 0 {
        one := Descend(one, '1', sequence[1..]);
        Repr := Repr + one.Repr;
      }
      Model := TrieModel.Node(value, count, LinkModel(zero), LinkModel(one));
    }

    /**
     * The step of `insert` below a node: an existing link under nextValue takes
     * nextSequence itself, a missing one is made by the constructor; either
     * way the result is the node now under nextValue.
     */
    static method Descend(link: TrieNode?, nextValue: char, nextSequence: string) returns (node: TrieNode)
      requires IsBinary(nextSequence)
      requires link != null ==> link.Valid() && link.value == Some(nextValue)
      modifies if link != null then link.Repr else {}
      ensures node.Valid() && node.value == Some(nextValue)
      ensures link != null ==> node == link && fresh(node.Repr - old(link.Repr))
      ensures link == null ==> fresh(node.Repr)
      ensures node.Model == if link != null then TrieModel.Insert(old(link.Model), nextSequence)
                            else TrieModel.Spawn(nextValue, nextSequence)
      decreases |nextSequence|, 3
    {
      if link != null {
        link.Insert(nextSequence);
        node := link;
      } else {
        node := new TrieNode(Some(nextValue), nextSequence);
      }
    }

    /** `getLinksAsc`: the links in the order TrieModel.LinksAsc gives (a fresh sequence; the node is unchanged). */
    method GetLinksAsc() returns (links: seq<TrieNode>)
      requires Valid()
      ensures Models(links) == TrieModel.LinksAsc(Model)
      ensures forall i :: 0 <= i < |links| ==> IsLinkOf(links[i])
    {
      if zero != null && one != null && one.count < zero.count {
        links := [one, zero];
      } else {
        links := (if zero != null then [zero] else []) + (if one != null then [one] else []);
      }
    }

    /** `getMostPopularLink`: the last of the sorted links. */
    method GetMostPopularLink() returns (link: TrieNode)
      requires Valid() && TrieModel.HasLinks(Model)
      ensures IsLinkOf(link) && link.Model == TrieModel.MostPopularLink(Model)
    {
      var links := GetLinksAsc();
      link := links[|links| - 1];
    }

    /** `getLeastPopularLink`: the first of the sorted links. */
    method GetLeastPopularLink() returns (link: TrieNode)
      requires Valid() && TrieModel.HasLinks(Model)
      ensures IsLinkOf(link) && link.Model == TrieModel.LeastPopularLink(Model)
    {
      var links := GetLinksAsc();
      link := links[0];
    }

    /** n is one of this node's links. */
    predicate IsLinkOf(n: TrieNode)
      reads this
    {
      n == zero || n == one
    }
  }

  /** The model of a link (`Nil` when there is none). */
  ghost function LinkModel(n: TrieNode?): TrieModel.Tree
    reads n
  {
    if n == null then TrieModel.Nil else n.Model
  }

  /** The models of a sequence of nodes. */
  ghost function Models(nodes: seq<TrieNode>): seq<TrieModel.Tree>
    reads set i | 0 <= i < |nodes| :: nodes[i]
  {
    seq(|nodes|, i reads set i | 0 <= i < |nodes| :: nodes[i] requires 0 <= i < |nodes| => nodes[i].Model)
  }

  /** Peeling the first node off a suffix of a sequence of nodes. */
  lemma ModelsCons(nodes: seq<TrieNode>, k: nat)
    requires k < |nodes|
    ensures Models(nodes[k..]) == [nodes[k].Model] + Models(nodes[k + 1..])
  {
  }

  /** A valid node's model has links exactly when the node has. */
  lemma LinksPresent(node: TrieNode)
    requires node.Valid()
    ensures TrieModel.HasLinks(node.Model) <==> node.zero != null || node.one != null
  {
  }

  /** A link of a valid node is valid and has a strictly smaller footprint. */
  lemma LinkValid(node: TrieNode, link: TrieNode)
    requires node.Valid() && node.IsLinkOf(link)
    ensures link.Valid() && link.Repr < node.Repr
    ensures link.Model == node.Model.zero || link.Model == node.Model.one
    ensures CarriesValue(link)
  {
  }

  /** The node's model is a node with the node's own value. */
  ghost predicate CarriesValue(n: TrieNode)
    reads n
  {
    n.Model.Node? && n.Model.value == n.value
  }

  /** `path.map((node) => node.value).join('')`. */
  function Values(path: seq<TrieNode>): string {
    if |path| == 0 then [] else (if path[0].value.Some? then [path[0].value.value] else []) + Values(path[1..])
  }

  /** Joining the nodes' values spells the models' values. */
  lemma {:induction false} ValuesSpell(path: seq<TrieNode>)
    requires forall i :: 0 <= i < |path| ==> CarriesValue(path[i])
    ensures Values(path) == TrieModel.Spell(Models(path))
  {
    if |path| > 0 {
      ValuesSpell(path[1..]);
      assert Models(path)[1..] == Models(path[1..]);
    }
  }

  class Trie {
    const root: TrieNode

    ghost predicate Valid()
      reads this, root, root.Repr
    {
      root.Valid() && root.value == None && TrieModel.Labelled(root.Model)
    }

    /** `new Trie(sequences)`: a fresh root into which every sequence is inserted, in order. */
    constructor (sequences: seq<string>)
      requires AllBinary(sequences)
      ensures Valid() && fresh(root.Repr)
      ensures root.Model == TrieModel.Build(sequences)
    {
      root := new TrieNode(None, []);
      new;
      var i := 0;
      while i < |sequences|
        invariant 0 <= i <= |sequences|
        invariant root.Valid() && root.value == None && fresh(root.Repr)
        invariant root.Model == TrieModel.Build(sequences[..i])
      {
        assert sequences[..i + 1][..i] == sequences[..i];
        root.Insert(sequences[i]);
        i := i + 1;
      }
      assert sequences[..i] == sequences;
      root.ModelLabelled();
    }

    /**
     * `getMostPopularPath(path, node)`: pushes onto path the nodes of the
     * most popular path from node; the pushed nodes are that path of the model.
     */
    method GetMostPopularPath(path: seq<TrieNode>, node: TrieNode) returns (result: seq<TrieNode>)
      requires node.Valid()
      ensures |path| <= |result| && result[..|path|] == path
      ensures Models(result[|path|..]) == TrieModel.PopularPath(node.Model, true)
      ensures forall i :: |path| <= i < |result| ==> CarriesValue(result[i])
      decreases node.Repr
    {
      result := path;
      LinksPresent(node);
      if node.zero != null || node.one != null {
        var mostPopularLink := node.GetMostPopularLink();
        LinkValid(node, mostPopularLink);
        result := result + [mostPopularLink];
        ghost var pushed := result;
        result := GetMostPopularPath(result, mostPopularLink);
        assert result[..|path|] == path && result[|path|] == mostPopularLink by {
          assert result[..|pushed|] == pushed;
          assert result[..|path|] == pushed[..|path|];
        }
        ModelsCons(result, |path|);
      }
    }

    /**
     * `getLeastPopularPath(path, node)`: pushes onto path the nodes of the
     * least popular path from node; the pushed nodes are that path of the model.
     */
    method GetLeastPopularPath(path: seq<TrieNode>, node: TrieNode) returns (result: seq<TrieNode>)
      requires node.Valid()
      ensures |path| <= |result| && result[..|path|] == path
      ensures Models(result[|path|..]) == TrieModel.PopularPath(node.Model, false)
      ensures forall i :: |path| <= i < |result| ==> CarriesValue(result[i])
      decreases node.Repr
    {
      result := path;
      LinksPresent(node);
      if node.zero != null || node.one != null {
        var leastPopularLink := node.GetLeastPopularLink();
        LinkValid(node, leastPopularLink);
        result := result + [leastPopularLink];
        ghost var pushed := result;
        result := GetLeastPopularPath(result, leastPopularLink);
        assert result[..|path|] == path && result[|path|] == leastPopularLink by {
          assert result[..|pushed|] == pushed;
          assert result[..|path|] == pushed[..|path|];
        }
        ModelsCons(result, |path|);
      }
    }
  }

  /** `getOxygenGeneratorRating`: the values along the most popular path from the root. */
  method GetOxygenGeneratorRating(trie: Trie) returns (rating: string)
    requires trie.Valid()
    ensures rating == TrieModel.Rating(trie.root.Model, true)
  {
    var path := trie.GetMostPopularPath([], trie.root);
    assert path[0..] == path;
    ValuesSpell(path);
    rating := Values(path);
  }

  /** `getCO2ScrubberRating`: the values along the least popular path from the root. */
  method GetCO2ScrubberRating(trie: Trie) returns (rating: string)
    requires trie.Valid()
    ensures rating == TrieModel.Rating(trie.root.Model, false)
  {
    var path := trie.GetLeastPopularPath([], trie.root);
    assert path[0..] == path;
    ValuesSpell(path);
    rating := Values(path);
  }

  /** `getLifeSupportRating`: the two ratings parsed in base 2 and multiplied (`NaN` as `None`). */
  method GetLifeSupportRating(trie: Trie) returns (rating: Option<nat>)
    requires trie.Valid()
    ensures rating == TrieModel.LifeSupportRating(trie.root.Model)
  {
    var oxRating := GetOxygenGeneratorRating(trie);
    var co2Rating := GetCO2ScrubberRating(trie);
    rating := Times(BitsToNumber(oxRating), BitsToNumber(co2Rating));
  }

  /**
   * A trie built from non-empty binary readings of one positive width gives a
   * life-support rating that is the product of two of the readings.
   */
  method LifeSupportOfReadings(sequences: seq<string>, n: nat) returns (rating: Option<nat>)
    requires AllBinary(sequences) && |sequences| > 0 && n > 0
    requires forall k :: 0 <= k < |sequences| ==> |sequences[k]| == n
    ensures exists ox, co2 :: ox in sequences && co2 in sequences && IsBinary(ox) && IsBinary(co2) &&
                              rating == Some(BinaryValue(ox) * BinaryValue(co2))
  {
    var trie := new Trie(sequences);
    rating := GetLifeSupportRating(trie);
    TrieModel.LifeSupportOfUniform(sequences, n);
  }
}
