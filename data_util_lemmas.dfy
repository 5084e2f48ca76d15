/**
 * What getDataObject promises, stated about its specification `Resolve`:
 * the read-failure fallback, the two wildcard expansions, comma lists,
 * single names, and how the buffer is consumed.
 */
module DataUtilProperties {
  import opened Wrappers
  import opened JavaStrings
  import opened DataUtil

  // ---------------------------------------------------------------------
  // Fallback on a failed read

  /**
   * When no selector is given and the buffer has nothing left, the call
   * succeeds: the caller's list gets every child in iteration order (a leaf
   * as is, a sub-holder as its fallback object, or wrapped when `wrap`),
   * and the cursor stays where it was.
   */
  lemma ReadFailureEnumeratesChildren(peer: Address, h: DataHolder, tokens: seq<string>, pos: nat,
                                      initial: seq<Item>, wrap: bool)
    requires WellFormed(h) && pos >= |tokens|
    ensures var r := Resolve(peer, h, None, tokens, pos, initial, wrap);
      && r.returned == ReturnsInitial && r.pos == pos
      && |r.list| == |initial| + |h.children|
      && r.list[..|initial|] == initial
      && forall i :: 0 <= i < |h.children| ==>
           r.list[|initial| + i] == match h.children[i].node
             case Leaf(o) => Object(o)
             case Sub(c) => if wrap then HolderWrapper(c) else Object(c.fallback)
  {
  }

  // ---------------------------------------------------------------------
  // "*"

  /** "*" resolves exactly as the explicit list of the holder's keys, joined with ",". */
  lemma StarIsKeyList(peer: Address, h: DataHolder, tokens: seq<string>, pos: nat, initial: seq<Item>, wrap: bool)
    requires WellFormed(h)
    ensures Resolve(peer, h, Some("*"), tokens, pos, initial, wrap)
         == Resolve(peer, h, Some(Join(Keys(h.children))), tokens, pos, initial, wrap)
  {
    var ks := Keys(h.children);
    JoinHasComma(ks);
    if |ks| == 1 {
      assert Join(ks) == h.children[0].key;
    }
  }

  /** The "*" expansion has no trailing separator: its raw pieces are exactly the keys. */
  lemma StarPiecesAreKeys(h: DataHolder)
    requires WellFormed(h) && |h.children| >= 1
    ensures RawSplit(Join(Keys(h.children))) == Keys(h.children)
  {
    RawSplitJoin(Keys(h.children));
  }

  /** On a holder without children "*" becomes "", which is not a key: the call returns null. */
  lemma StarOnEmptyHolderIsNull(peer: Address, h: DataHolder, tokens: seq<string>, pos: nat,
                                initial: seq<Item>, wrap: bool)
    requires WellFormed(h) && h.children == []
    ensures Resolve(peer, h, Some("*"), tokens, pos, initial, wrap) == Resolution(ReturnsNull, initial, pos)
  {
  }

  // ---------------------------------------------------------------------
  // "*u"

  /**
   * The "*u" expansion has one piece per child, in iteration order: a
   * sub-holder's identifier when it needs an update for the peer and the
   * empty piece otherwise, and every leaf's name. The separator after the
   * last child is the only one cut.
   */
  lemma ChangedOnlyPieces(peer: Address, h: DataHolder)
    requires WellFormed(h) && |h.children| >= 1
    ensures var ps := RawSplit(Expand(h, peer, "*u"));
      && |ps| == |h.children|
      && forall i :: 0 <= i < |h.children| ==>
           match h.children[i].node
           case Sub(c) => ps[i] == if NeedsUpdate(c, peer) then c.identifier else ""
           case Leaf(o) => ps[i] == o.name
  {
    var cs := Contributions(h.children, peer);
    assert CommaFree(cs);
    RawSplitJoin(cs);
  }

  // ---------------------------------------------------------------------
  // Comma lists

  /** A selector holding "," is split with Java's split and its pieces resolved in order. */
  lemma CommaListIsPieces(peer: Address, h: DataHolder, x: string, tokens: seq<string>, pos: nat,
                          initial: seq<Item>, wrap: bool)
    requires WellFormed(h) && ',' in x
    ensures Resolve(peer, h, Some(x), tokens, pos, initial, wrap)
         == ResolvePieces(peer, h, Split(x), tokens, pos, initial)
  {
  }

  /**
   * Resolving a list of pieces is resolving a prefix and then the rest from
   * where the prefix left the cursor and the list; a null prefix ends it.
   */
  lemma {:induction false} PiecesCompose(peer: Address, h: DataHolder, ps1: seq<string>, ps2: seq<string>,
                                         tokens: seq<string>, pos: nat, acc: seq<Item>)
    requires WellFormed(h) && CommaFree(ps1) && CommaFree(ps2)
    ensures CommaFree(ps1 + ps2)
    ensures var r1 := ResolvePieces(peer, h, ps1, tokens, pos, acc);
      ResolvePieces(peer, h, ps1 + ps2, tokens, pos, acc)
        == if r1.returned == ReturnsNull then r1 else ResolvePieces(peer, h, ps2, tokens, r1.pos, r1.list)
    decreases |ps1|
  {
    assert CommaFree(ps1 + ps2) by {
      forall i | 0 <= i < |ps1 + ps2| ensures ',' !in (ps1 + ps2)[i] {
        if i < |ps1| { assert (ps1 + ps2)[i] == ps1[i]; } else { assert (ps1 + ps2)[i] == ps2[i - |ps1|]; }
      }
    }
    if ps1 == [] {
      assert ps1 + ps2 == ps2;
    } else {
      assert (ps1 + ps2)[0] == ps1[0];
      assert (ps1 + ps2)[1..] == ps1[1..] + ps2;
      var first := Resolve(peer, h, Some(ps1[0]), tokens, pos, [], false);
      if Contents(first).Some? {
        PiecesCompose(peer, h, ps1[1..], ps2, tokens, first.pos, acc + Contents(first).value);
      }
    }
  }

  /**
   * A piece that resolves to null, after the earlier pieces succeeded, makes
   * the whole list null; what the earlier pieces appended stays in the list.
   */
  lemma PieceFailureFailsAll(peer: Address, h: DataHolder, ps: seq<string>, k: nat,
                             tokens: seq<string>, pos: nat, acc: seq<Item>)
    requires WellFormed(h) && CommaFree(ps) && k < |ps|
    requires ResolvePieces(peer, h, ps[..k], tokens, pos, acc).returned == ReturnsInitial
    requires Contents(Resolve(peer, h, Some(ps[k]), tokens, ResolvePieces(peer, h, ps[..k], tokens, pos, acc).pos, [], false)).None?
    ensures ResolvePieces(peer, h, ps, tokens, pos, acc).returned == ReturnsNull
    ensures ResolvePieces(peer, h, ps, tokens, pos, acc).list == ResolvePieces(peer, h, ps[..k], tokens, pos, acc).list
  {
    var pre, rest := ps[..k], ps[k..];
    SplitAt(ps, k);
    var r1 := ResolvePieces(peer, h, pre, tokens, pos, acc);
    FirstPieceFails(peer, h, rest, tokens, r1.pos, r1.list);
    PiecesCompose(peer, h, pre, rest, tokens, pos, acc);
  }

  /** Cutting a comma-free list at k: two comma-free parts, the second starting with the k-th piece. */
  lemma SplitAt(ps: seq<string>, k: nat)
    requires CommaFree(ps) && k < |ps|
    ensures CommaFree(ps[..k]) && CommaFree(ps[k..])
    ensures ps[k..] != [] && ps[k..][0] == ps[k] && ps[..k] + ps[k..] == ps
  {
    assert forall i :: 0 <= i < |ps[k..]| ==> ps[k..][i] == ps[k + i];
  }

  /** A first piece that resolves to null ends the comma loop with null and appends nothing. */
  lemma FirstPieceFails(peer: Address, h: DataHolder, ps: seq<string>, tokens: seq<string>, pos: nat, acc: seq<Item>)
    requires WellFormed(h) && CommaFree(ps) && ps != []
    requires Contents(Resolve(peer, h, Some(ps[0]), tokens, pos, [], false)).None?
    ensures ResolvePieces(peer, h, ps, tokens, pos, acc)
         == Resolution(ReturnsNull, acc, Resolve(peer, h, Some(ps[0]), tokens, pos, [], false).pos)
  {
  }

  /** A plain piece that is not a key fails wherever the cursor stands, so the whole list is null. */
  lemma {:induction false} MissingPieceFails(peer: Address, h: DataHolder, ps: seq<string>, k: nat,
                                             tokens: seq<string>, pos: nat, acc: seq<Item>)
    requires WellFormed(h) && CommaFree(ps) && k < |ps|
    requires Plain(ps[k]) && FindKey(h.children, ps[k]).None?
    ensures ResolvePieces(peer, h, ps, tokens, pos, acc).returned == ReturnsNull
    decreases k
  {
    var first := Resolve(peer, h, Some(ps[0]), tokens, pos, [], false);
    if k == 0 {
      MissingNameIsNull(peer, h, ps[0], tokens, pos, [], false);
    } else if Contents(first).Some? {
      assert ps[1..][k - 1] == ps[k];
      MissingPieceFails(peer, h, ps[1..], k - 1, tokens, first.pos, acc + Contents(first).value);
    }
  }

  // ---------------------------------------------------------------------
  // Single names

  /** A single plain name that is not a key: null, nothing appended, nothing read. */
  lemma MissingNameIsNull(peer: Address, h: DataHolder, x: string, tokens: seq<string>, pos: nat,
                          initial: seq<Item>, wrap: bool)
    requires WellFormed(h) && Plain(x) && FindKey(h.children, x).None?
    ensures Resolve(peer, h, Some(x), tokens, pos, initial, wrap) == Resolution(ReturnsNull, initial, pos)
  {
  }

  /** A single name bound to a leaf appends exactly that leaf. */
  lemma LeafNameAppendsLeaf(peer: Address, h: DataHolder, x: string, k: nat, o: DataObject,
                            tokens: seq<string>, pos: nat, initial: seq<Item>, wrap: bool)
    requires WellFormed(h) && Plain(x)
    requires FindKey(h.children, x) == Some(k) && h.children[k].node == Leaf(o)
    ensures var r := Resolve(peer, h, Some(x), tokens, pos, initial, wrap);
      r == Resolution(ReturnsInitial, initial + [Object(o)], pos) && |r.list| == |initial| + 1
  {
  }

  /**
   * A single name bound to a sub-holder: wrapped when `wrap`; otherwise the
   * sub-holder is resolved with no selector, reading the same buffer, and
   * its result appended; if that is null, the call returns a fresh list
   * holding only a HolderWrapper of the sub-holder and appends nothing.
   */
  lemma SubHolderName(peer: Address, h: DataHolder, x: string, k: nat, c: DataHolder,
                      tokens: seq<string>, pos: nat, initial: seq<Item>, wrap: bool)
    requires WellFormed(h) && Plain(x)
    requires FindKey(h.children, x) == Some(k) && h.children[k].node == Sub(c)
    ensures WellFormed(c)
    ensures var r := Resolve(peer, h, Some(x), tokens, pos, initial, wrap);
      var nested := Resolve(peer, c, None, tokens, pos, [], false);
      if wrap then r == Resolution(ReturnsInitial, initial + [HolderWrapper(c)], pos)
      else if Contents(nested).None? then
        r == Resolution(ReturnsSingleton(HolderWrapper(c)), initial, nested.pos) && Contents(r) == Some([HolderWrapper(c)])
      else r == Resolution(ReturnsInitial, initial + Contents(nested).value, nested.pos)
  {
  }

  // ---------------------------------------------------------------------
  // Lists of leaf names

  function AsItems(os: seq<DataObject>): (items: seq<Item>)
    ensures |items| == |os| && forall i :: 0 <= i < |os| ==> items[i] == Object(os[i])
  {
    seq(|os|, i requires 0 <= i < |os| => Object(os[i]))
  }

  lemma AsItemsHead(acc: seq<Item>, os: seq<DataObject>)
    requires os != []
    ensures acc + [Object(os[0])] + AsItems(os[1..]) == acc + AsItems(os)
  {
    assert AsItems(os) == [Object(os[0])] + AsItems(os[1..]);
  }

  /** `names[i]` is the key of a leaf holding `leaves[i]`, for every i. */
  predicate NamesLeaves(h: DataHolder, names: seq<string>, leaves: seq<DataObject>)
  {
    && |names| == |leaves|
    && forall i :: 0 <= i < |names| ==>
         FindKey(h.children, names[i]).Some? && h.children[FindKey(h.children, names[i]).value].node == Leaf(leaves[i])
  }

  /** One step of the comma loop, when the first piece does not fail. */
  lemma PiecesStep(peer: Address, h: DataHolder, ps: seq<string>, tokens: seq<string>, pos: nat, acc: seq<Item>)
    requires WellFormed(h) && CommaFree(ps) && ps != []
    requires Contents(Resolve(peer, h, Some(ps[0]), tokens, pos, [], false)).Some?
    ensures CommaFree(ps[1..])
    ensures var first := Resolve(peer, h, Some(ps[0]), tokens, pos, [], false);
      ResolvePieces(peer, h, ps, tokens, pos, acc)
        == ResolvePieces(peer, h, ps[1..], tokens, first.pos, acc + Contents(first).value)
  {
  }

  lemma NamesLeavesTail(h: DataHolder, names: seq<string>, leaves: seq<DataObject>)
    requires NamesLeaves(h, names, leaves) && names != []
    ensures NamesLeaves(h, names[1..], leaves[1..])
  {
    forall i | 0 <= i < |names[1..]|
      ensures FindKey(h.children, names[1..][i]).Some? && h.children[FindKey(h.children, names[1..][i]).value].node == Leaf(leaves[1..][i])
    {
      assert names[1..][i] == names[i + 1] && leaves[1..][i] == leaves[i + 1];
    }
  }

  lemma {:induction false} LeafPiecesResolve(peer: Address, h: DataHolder, names: seq<string>, leaves: seq<DataObject>,
                                             tokens: seq<string>, pos: nat, acc: seq<Item>)
    requires WellFormed(h) && NamesLeaves(h, names, leaves)
    ensures CommaFree(names)
    ensures ResolvePieces(peer, h, names, tokens, pos, acc) == Resolution(ReturnsInitial, acc + AsItems(leaves), pos)
    decreases |names|
  {
    assert CommaFree(names) by {
      forall i | 0 <= i < |names| ensures ',' !in names[i] {
        assert Plain(h.children[FindKey(h.children, names[i]).value].key);
      }
    }
    if names != [] {
      var k := FindKey(h.children, names[0]).value;
      assert Plain(h.children[k].key);
      LeafNameAppendsLeaf(peer, h, names[0], k, leaves[0], tokens, pos, [], false);
      assert [] + [Object(leaves[0])] == [Object(leaves[0])];
      PiecesStep(peer, h, names, tokens, pos, acc);
      NamesLeavesTail(h, names, leaves);
      LeafPiecesResolve(peer, h, names[1..], leaves[1..], tokens, pos, acc + [Object(leaves[0])]);
      AsItemsHead(acc, leaves);
    }
  }

  /**
   * Joined leaf names resolve to exactly those leaves, in that order,
   * without touching the buffer, provided the list does not end in an
   * empty name (Java's split would drop it).
   */
  lemma LeafNamesResolve(peer: Address, h: DataHolder, names: seq<string>, leaves: seq<DataObject>,
                         tokens: seq<string>, pos: nat, initial: seq<Item>, wrap: bool)
    requires WellFormed(h) && NamesLeaves(h, names, leaves)
    requires |names| >= 1 && names[|names| - 1] != ""
    ensures Resolve(peer, h, Some(Join(names)), tokens, pos, initial, wrap)
         == Resolution(ReturnsInitial, initial + AsItems(leaves), pos)
  {
    LeafPiecesResolve(peer, h, names, leaves, tokens, pos, initial);
    if |names| >= 2 {
      JoinHasComma(names);
      SplitJoin(names);
      assert DropTrailingEmpty(names) == names;
      CommaListIsPieces(peer, h, Join(names), tokens, pos, initial, wrap);
    } else {
      var k := FindKey(h.children, names[0]).value;
      assert Plain(h.children[k].key);
      assert Join(names) == names[0];
      LeafNameAppendsLeaf(peer, h, names[0], k, leaves[0], tokens, pos, initial, wrap);
      assert AsItems(leaves) == [Object(leaves[0])];
    }
  }

  /** With distinct keys, looking up the key at position i finds position i. */
  lemma {:induction false} FindKeyOfKey(cs: seq<Entry>, i: nat)
    requires i < |cs|
    requires forall a, b :: 0 <= a < b < |cs| ==> cs[a].key != cs[b].key
    ensures FindKey(cs, cs[i].key) == Some(i)
  {
  }

  /** The objects of the leaf children, in iteration order. */
  function LeafObjects(cs: seq<Entry>): (os: seq<DataObject>)
    ensures |os| <= |cs|
    ensures (forall i :: 0 <= i < |cs| ==> cs[i].node.Leaf?) ==>
              |os| == |cs| && forall i :: 0 <= i < |cs| ==> os[i] == cs[i].node.obj
  {
    if cs == [] then []
    else
      var rest := LeafObjects(cs[1..]);
      assert (forall i :: 0 <= i < |cs| ==> cs[i].node.Leaf?) ==> forall i :: 0 <= i < |cs[1..]| ==> cs[1..][i].node.Leaf? by {
        if forall i :: 0 <= i < |cs| ==> cs[i].node.Leaf? {
          forall i | 0 <= i < |cs[1..]| ensures cs[1..][i].node.Leaf? { assert cs[1..][i] == cs[i + 1]; }
        }
      }
      match cs[0].node
      case Leaf(o) => [o] + rest
      case Sub(_) => rest
  }

  /**
   * On a holder whose children are all leaves, "*" returns every leaf in
   * iteration order, which is what a failed read returns too; it reads
   * nothing. The last key must not be empty, since split drops it.
   */
  lemma StarOnLeavesReturnsAll(peer: Address, h: DataHolder, tokens: seq<string>, pos: nat,
                               initial: seq<Item>, wrap: bool)
    requires WellFormed(h) && |h.children| >= 1
    requires forall i :: 0 <= i < |h.children| ==> h.children[i].node.Leaf?
    requires h.children[|h.children| - 1].key != ""
    ensures var r := Resolve(peer, h, Some("*"), tokens, pos, initial, wrap);
      && r == Resolution(ReturnsInitial, initial + AsItems(LeafObjects(h.children)), pos)
      && r.list == initial + Fallbacks(h.children, wrap)
  {
    var cs := h.children;
    var ks := Keys(cs);
    KeysNameLeaves(h);
    assert |ks| >= 1 && ks[|ks| - 1] == cs[|cs| - 1].key;
    StarIsKeyList(peer, h, tokens, pos, initial, wrap);
    LeafNamesResolve(peer, h, ks, LeafObjects(cs), tokens, pos, initial, wrap);
    LeafItemsAreFallbacks(cs, wrap);
  }

  /** On a holder of leaves, the keys in order name the leaves in order. */
  lemma KeysNameLeaves(h: DataHolder)
    requires WellFormed(h)
    requires forall i :: 0 <= i < |h.children| ==> h.children[i].node.Leaf?
    ensures NamesLeaves(h, Keys(h.children), LeafObjects(h.children))
  {
    var cs := h.children;
    var ks := Keys(cs);
    forall i | 0 <= i < |ks|
      ensures FindKey(cs, ks[i]).Some? && cs[FindKey(cs, ks[i]).value].node == Leaf(LeafObjects(cs)[i])
    {
      FindKeyOfKey(cs, i);
    }
  }

  /** Of leaves only, the fallback enumeration appends exactly the leaf objects. */
  lemma LeafItemsAreFallbacks(cs: seq<Entry>, wrap: bool)
    requires forall i :: 0 <= i < |cs| ==> cs[i].node.Leaf?
    ensures AsItems(LeafObjects(cs)) == Fallbacks(cs, wrap)
  {
  }

  // ---------------------------------------------------------------------
  // Buffer consumption

  predicate LeavesOnly(h: DataHolder)
  {
    forall i :: 0 <= i < |h.children| ==> h.children[i].node.Leaf?
  }

  /** On a holder without sub-holders, an explicit selector never reads the buffer. */
  lemma {:induction false} ExplicitOnLeavesReadsNothing(peer: Address, h: DataHolder, x: string, tokens: seq<string>,
                                                        pos: nat, initial: seq<Item>, wrap: bool)
    requires WellFormed(h) && LeavesOnly(h)
    ensures Resolve(peer, h, Some(x), tokens, pos, initial, wrap).pos == pos
    decreases Rank(Some(x)), 1
  {
    var name := Expand(h, peer, x);
    if ',' in name {
      ExpandedPiecesPlain(h, peer, x);
      PiecesOnLeavesReadNothing(peer, h, Split(name), tokens, pos, initial);
    }
  }

  lemma {:induction false} PiecesOnLeavesReadNothing(peer: Address, h: DataHolder, ps: seq<string>, tokens: seq<string>,
                                                     pos: nat, acc: seq<Item>)
    requires WellFormed(h) && LeavesOnly(h) && CommaFree(ps)
    ensures ResolvePieces(peer, h, ps, tokens, pos, acc).pos == pos
    decreases PiecesRank(ps), 0, |ps|
  {
    if ps != [] {
      assert Rank(Some(ps[0])) < PiecesRank(ps);
      ExplicitOnLeavesReadsNothing(peer, h, ps[0], tokens, pos, [], false);
      var first := Resolve(peer, h, Some(ps[0]), tokens, pos, [], false);
      assert PiecesRank(ps[1..]) <= PiecesRank(ps) by {
        if PiecesRank(ps[1..]) == 3 {
          var i :| 0 <= i < |ps[1..]| && (ps[1..][i] == "*" || ps[1..][i] == "*u");
          assert ps[i + 1] == ps[1..][i];
        }
      }
      if Contents(first).Some? {
        PiecesOnLeavesReadNothing(peer, h, ps[1..], tokens, pos, acc + Contents(first).value);
      }
    }
  }

  // ---------------------------------------------------------------------
  // The "*u" separator

  /**
   * As written, the "*u" loop writes a separator after every child, also
   * after a sub-holder it skips. A skipped sub-holder followed by a child
   * that does contribute leaves an empty piece inside the list; no key is
   * empty, so that piece misses and the whole call returns null.
   */
  lemma SkippedHolderBreaksChangedOnly(peer: Address, h: DataHolder, i: nat, j: nat, tokens: seq<string>,
                                       pos: nat, initial: seq<Item>, wrap: bool)
    requires WellFormed(h) && i < j < |h.children|
    requires h.children[i].node.Sub? && !NeedsUpdate(h.children[i].node.holder, peer)
    requires Contribution(h.children[j], peer) != ""
    requires forall k :: 0 <= k < |h.children| ==> h.children[k].key != ""
    ensures Resolve(peer, h, Some("*u"), tokens, pos, initial, wrap).returned == ReturnsNull
  {
    var cs := Contributions(h.children, peer);
    assert CommaFree(cs);
    EmptyPieceSurvives(cs, i, j);
    var ps := Split(Join(cs));
    assert FindKey(h.children, ps[i]).None?;
    MissingPieceFails(peer, h, ps, i, tokens, pos, initial);
    ChangedOnlyIsCommaList(peer, h, tokens, pos, initial, wrap);
  }

  /** An empty name followed by a non-empty one stays an empty piece of Java's split of the join. */
  lemma EmptyPieceSurvives(cs: seq<string>, i: nat, j: nat)
    requires CommaFree(cs) && i < j < |cs| && cs[i] == "" && cs[j] != ""
    ensures ',' in Join(cs)
    ensures i < |Split(Join(cs))| && Split(Join(cs))[i] == ""
  {
    JoinHasComma(cs);
    SplitJoin(cs);
  }

  /** A "*u" expansion holding "," resolves as the comma loop over its pieces. */
  lemma ChangedOnlyIsCommaList(peer: Address, h: DataHolder, tokens: seq<string>, pos: nat, initial: seq<Item>, wrap: bool)
    requires WellFormed(h) && ',' in Join(Contributions(h.children, peer))
    ensures Resolve(peer, h, Some("*u"), tokens, pos, initial, wrap)
         == ResolvePieces(peer, h, Split(Join(Contributions(h.children, peer))), tokens, pos, initial)
  {
  }

  /** A child the "*u" list should name: every leaf, and a sub-holder that needs an update for the peer. */
  predicate Included(e: Entry, peer: Address)
  {
    e.node.Leaf? || NeedsUpdate(e.node.holder, peer)
  }

  /** The names of the included children, in iteration order. */
  function IncludedNames(cs: seq<Entry>, peer: Address): (ns: seq<string>)
    ensures |ns| <= |cs|
  {
    if cs == [] then []
    else (if Included(cs[0], peer) then [NodeName(cs[0].node)] else []) + IncludedNames(cs[1..], peer)
  }

  /** The "*u" expansion as evidently intended: a separator only between included names. */
  function IntendedChangedOnly(cs: seq<Entry>, peer: Address): string
  {
    Join(IncludedNames(cs, peer))
  }

  lemma NamesLeavesCons(h: DataHolder, n: string, o: DataObject, ns: seq<string>, os: seq<DataObject>)
    requires NamesLeaves(h, ns, os)
    requires FindKey(h.children, n).Some? && h.children[FindKey(h.children, n).value].node == Leaf(o)
    ensures NamesLeaves(h, [n] + ns, [o] + os)
  {
    forall m | 0 <= m < |[n] + ns|
      ensures FindKey(h.children, ([n] + ns)[m]).Some? && h.children[FindKey(h.children, ([n] + ns)[m]).value].node == Leaf(([o] + os)[m])
    {
      if m > 0 { assert ([n] + ns)[m] == ns[m - 1] && ([o] + os)[m] == os[m - 1]; }
    }
  }

  lemma SuffixStep(cs: seq<Entry>, peer: Address, k: nat)
    requires k < |cs|
    ensures IncludedNames(cs[k..], peer)
         == (if Included(cs[k], peer) then [NodeName(cs[k].node)] else []) + IncludedNames(cs[k + 1..], peer)
    ensures LeafObjects(cs[k..]) == (if cs[k].node.Leaf? then [cs[k].node.obj] else []) + LeafObjects(cs[k + 1..])
  {
    assert cs[k..][0] == cs[k] && cs[k..][1..] == cs[k + 1..];
  }

  /**
   * When no sub-holder from position k on needs an update and every leaf is
   * stored under its own name, the included names from k on are keys of
   * exactly the leaves from k on.
   */
  lemma {:induction false} IncludedAreLeaves(h: DataHolder, peer: Address, k: nat)
    requires WellFormed(h) && k <= |h.children|
    requires forall i :: 0 <= i < |h.children| ==> h.children[i].node.Sub? ==> !NeedsUpdate(h.children[i].node.holder, peer)
    requires forall i :: 0 <= i < |h.children| ==> h.children[i].node.Leaf? ==> h.children[i].key == h.children[i].node.obj.name
    ensures NamesLeaves(h, IncludedNames(h.children[k..], peer), LeafObjects(h.children[k..]))
    decreases |h.children| - k
  {
    var cs := h.children;
    if k < |cs| {
      IncludedAreLeaves(h, peer, k + 1);
      SuffixStep(cs, peer, k);
      if cs[k].node.Leaf? {
        FindKeyOfKey(cs, k);
        NamesLeavesCons(h, cs[k].key, cs[k].node.obj, IncludedNames(cs[k + 1..], peer), LeafObjects(cs[k + 1..]));
      }
    }
  }

  /** A holder with a leaf child has at least one leaf object. */
  lemma {:induction false} SomeLeafObject(cs: seq<Entry>, i: nat)
    requires i < |cs| && cs[i].node.Leaf?
    ensures |LeafObjects(cs)| >= 1
    decreases i
  {
    if i > 0 && cs[0].node.Sub? {
      assert cs[1..][i - 1] == cs[i];
      SomeLeafObject(cs[1..], i - 1);
    }
  }

  /**
   * The corrected "*u": with no sub-holder needing an update, the list
   * resolves to exactly the leaves, in iteration order, reading nothing.
   */
  lemma IntendedChangedOnlyResolvesLeaves(peer: Address, h: DataHolder, tokens: seq<string>, pos: nat,
                                          initial: seq<Item>, wrap: bool)
    requires WellFormed(h)
    requires forall i :: 0 <= i < |h.children| ==> h.children[i].node.Sub? ==> !NeedsUpdate(h.children[i].node.holder, peer)
    requires forall i :: 0 <= i < |h.children| ==> h.children[i].node.Leaf? ==> h.children[i].key == h.children[i].node.obj.name
    requires forall i :: 0 <= i < |h.children| ==> h.children[i].key != ""
    requires exists i :: 0 <= i < |h.children| && h.children[i].node.Leaf?
    ensures Resolve(peer, h, Some(IntendedChangedOnly(h.children, peer)), tokens, pos, initial, wrap)
         == Resolution(ReturnsInitial, initial + AsItems(LeafObjects(h.children)), pos)
  {
    var cs := h.children;
    IncludedAreLeaves(h, peer, 0);
    assert cs[0..] == cs;
    var ns, os := IncludedNames(cs, peer), LeafObjects(cs);
    var i :| 0 <= i < |cs| && cs[i].node.Leaf?;
    SomeLeafObject(cs, i);
    var last := FindKey(cs, ns[|ns| - 1]).value;
    assert ns[|ns| - 1] == cs[last].key;
    LeafNamesResolve(peer, h, ns, os, tokens, pos, initial, wrap);
  }

  /** The smallest instance: a sub-holder "h" that needs no update, then a leaf "x". */
  function ExampleRoot(): (root: DataHolder)
    ensures WellFormed(root)
  {
    var sub := DataHolder("h", [], DataObject("h", ""), {});
    var root := DataHolder("root", [Entry("h", Sub(sub)), Entry("x", Leaf(DataObject("x", "1")))], DataObject("root", ""), {});
    assert WellFormed(sub);
    assert root.children[0].key != root.children[1].key;
    root
  }

  /** As written, "*u" on the example expands to ",x" and the call returns null. */
  lemma ChangedOnlyExample(peer: Address)
    ensures Expand(ExampleRoot(), peer, "*u") == ",x"
    ensures Resolve(peer, ExampleRoot(), Some("*u"), [], 0, [], false).returned == ReturnsNull
  {
    var root := ExampleRoot();
    assert Contributions(root.children, peer) == ["", "x"];
    assert Join(["", "x"]) == ",x";
    SkippedHolderBreaksChangedOnly(peer, root, 0, 1, [], 0, [], false);
  }

  /** The corrected expansion of the example is "x", and it returns the leaf. */
  lemma IntendedChangedOnlyExample(peer: Address)
    ensures IntendedChangedOnly(ExampleRoot().children, peer) == "x"
    ensures Resolve(peer, ExampleRoot(), Some(IntendedChangedOnly(ExampleRoot().children, peer)), [], 0, [], false)
         == Resolution(ReturnsInitial, [Object(DataObject("x", "1"))], 0)
  {
    var root := ExampleRoot();
    var x := DataObject("x", "1");
    assert root.children[1..] == [Entry("x", Leaf(x))];
    assert IncludedNames(root.children, peer) == ["x"];
    assert LeafObjects(root.children) == [x];
    IntendedChangedOnlyResolvesLeaves(peer, root, [], 0, [], false);
    assert AsItems([x]) == [Object(x)];
  }
}
