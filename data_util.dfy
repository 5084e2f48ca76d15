/**
 * Selector resolution over a tree of data holders (DataUtil.getDataObject)
 * and the HolderWrapper adapter.
 *
 * A selector is an explicit name or the next string read from the request
 * buffer. It may be "*" (every child), "*u" (the sub-holders that are stale
 * for the peer, and every leaf), a comma list, or a single name.
 * `Resolve` is the specification of one call; `GetDataObject` is the
 * imperative procedure, which appends into the caller's list in place,
 * advances the shared buffer and builds expansions with StringBuilder loops,
 * and is proved to do what `Resolve` says.
 */
module DataUtil {
  import opened Wrappers
  import opened JavaStrings

  /** The remote address of a connection, as UpdateStatus keys it. */
  type Address = string

  /** A leaf value: its name and its payload. */
  datatype DataObject = DataObject(name: string, value: string)

  /** A child of a holder is a leaf or another holder. */
  datatype Node = Leaf(obj: DataObject) | Sub(holder: DataHolder)

  datatype Entry = Entry(key: string, node: Node)

  /**
   * A holder: its identifier, its children in the holder's iteration order,
   * the object that stands in for it, and the remote addresses for which its
   * UpdateStatus reports that an update is needed.
   */
  datatype DataHolder = DataHolder(identifier: string, children: seq<Entry>, fallback: DataObject, stale: set<Address>)

  /** UpdateStatus.needsUpdate(address). */
  predicate NeedsUpdate(h: DataHolder, address: Address)
  {
    address in h.stale
  }

  /** An element of a result list: a data object, or a HolderWrapper standing for a holder. */
  datatype Item = Object(obj: DataObject) | HolderWrapper(holder: DataHolder)

  /** What a delete() on a result element removes. */
  datatype Deletion = DeletesObject(obj: DataObject) | DeletesHolder(holder: DataHolder)

  function ItemName(i: Item): string
  {
    match i
    case Object(o) => o.name
    case HolderWrapper(h) => h.identifier
  }

  function ItemValue(i: Item): string
  {
    match i
    case Object(o) => o.value
    case HolderWrapper(_) => ""
  }

  function Delete(i: Item): Deletion
  {
    match i
    case Object(o) => DeletesObject(o)
    case HolderWrapper(h) => DeletesHolder(h)
  }

  /** new HolderWrapper(holder): named after the holder, empty payload, deletion forwarded to the holder. */
  function Wrap(h: DataHolder): (w: Item)
    ensures ItemName(w) == h.identifier && ItemValue(w) == ""
    ensures Delete(w) == DeletesHolder(h)
  {
    HolderWrapper(h)
  }

  // ---------------------------------------------------------------------
  // Shape of the tree

  function NodeName(n: Node): string
  {
    match n
    case Leaf(o) => o.name
    case Sub(h) => h.identifier
  }

  /** A name that can never be taken for a list or a wildcard. */
  predicate Plain(k: string)
  {
    ',' !in k && k != "*" && k != "*u"
  }

  /**
   * Keys are distinct (the children are a map), and every key and every
   * child's own name is plain, all the way down. Without the second part a
   * key "*" next to another key makes the "*" expansion recurse forever.
   */
  predicate WellFormed(h: DataHolder)
    decreases h
  {
    && (forall i, j :: 0 <= i < j < |h.children| ==> h.children[i].key != h.children[j].key)
    && forall i :: 0 <= i < |h.children| ==>
         && Plain(h.children[i].key)
         && Plain(NodeName(h.children[i].node))
         && (h.children[i].node.Sub? ==> WellFormed(h.children[i].node.holder))
  }

  function Keys(cs: seq<Entry>): (ks: seq<string>)
    ensures |ks| == |cs| && forall i :: 0 <= i < |cs| ==> ks[i] == cs[i].key
  {
    seq(|cs|, i requires 0 <= i < |cs| => cs[i].key)
  }

  /** holder.get(name): the position of the child stored under `k`, if any. */
  function FindKey(cs: seq<Entry>, k: string): (r: Option<nat>)
    ensures r.Some? ==> r.value < |cs| && cs[r.value].key == k
    ensures r.Some? ==> forall j :: 0 <= j < r.value ==> cs[j].key != k
    ensures r.None? ==> forall j :: 0 <= j < |cs| ==> cs[j].key != k
  {
    if cs == [] then None
    else if cs[0].key == k then Some(0)
    else match FindKey(cs[1..], k)
      case None => None
      case Some(j) => Some(j + 1)
  }

  // ---------------------------------------------------------------------
  // Expansions

  /** What the "*u" loop writes for one child before its separator. */
  function Contribution(e: Entry, peer: Address): string
  {
    match e.node
    case Sub(h) => if NeedsUpdate(h, peer) then h.identifier else ""
    case Leaf(o) => o.name
  }

  function Contributions(cs: seq<Entry>, peer: Address): (ps: seq<string>)
    ensures |ps| == |cs| && forall i :: 0 <= i < |cs| ==> ps[i] == Contribution(cs[i], peer)
  {
    seq(|cs|, i requires 0 <= i < |cs| => Contribution(cs[i], peer))
  }

  /** The builder contents after the "*u" loop: a contribution and a "," for every child. */
  function ChangedOnlyRaw(cs: seq<Entry>, peer: Address): string
  {
    if cs == [] then ""
    else ChangedOnlyRaw(cs[..|cs| - 1], peer) + Contribution(cs[|cs| - 1], peer) + ","
  }

  /** The selector after wildcard expansion. */
  function Expand(h: DataHolder, peer: Address, name: string): (s: string)
    ensures name != "*" && name != "*u" ==> s == name
    ensures (name == "*" || name == "*u") && |h.children| >= 2 ==> ',' in s
  {
    if name == "*" then Join(Keys(h.children))
    else if name == "*u" then Join(Contributions(h.children, peer))
    else name
  }

  // ---------------------------------------------------------------------
  // The specification of one getDataObject call

  /** Which list a call returns: null, the caller's list, or a fresh one-element list. */
  datatype Returned = ReturnsNull | ReturnsInitial | ReturnsSingleton(wrapper: Item)

  /**
   * The outcome of a call: what it returns, what the caller's list holds
   * afterwards, and where the buffer cursor stands.
   */
  datatype Resolution = Resolution(returned: Returned, list: seq<Item>, pos: nat)

  /** The contents of the returned list, None for null. */
  function Contents(r: Resolution): Option<seq<Item>>
  {
    match r.returned
    case ReturnsNull => None
    case ReturnsInitial => Some(r.list)
    case ReturnsSingleton(w) => Some([w])
  }

  /** What the fallback enumeration appends for one child. */
  function FallbackItem(n: Node, wrap: bool): Item
  {
    match n
    case Leaf(o) => Object(o)
    case Sub(c) => if wrap then Wrap(c) else Object(c.fallback)
  }

  function Fallbacks(cs: seq<Entry>, wrap: bool): (items: seq<Item>)
    ensures |items| == |cs|
    ensures forall i :: 0 <= i < |cs| ==> items[i] == FallbackItem(cs[i].node, wrap)
  {
    if cs == [] then []
    else Fallbacks(cs[..|cs| - 1], wrap) + [FallbackItem(cs[|cs| - 1].node, wrap)]
  }

  /**
   * Termination measure of a selector on one holder: a plain name only looks
   * itself up; a wildcard expands into plain names; a selector read from
   * the buffer, or one holding a ",", splits into pieces without ",".
   */
  function Rank(s: Option<string>): nat
  {
    match s
    case None => 3
    case Some(x) => if ',' in x then 3 else if x == "*" || x == "*u" then 2 else 0
  }

  function PiecesRank(ps: seq<string>): nat
  {
    if exists i :: 0 <= i < |ps| && (ps[i] == "*" || ps[i] == "*u") then 3 else 1
  }

  /** The pieces of an expanded wildcard are names the holder itself supplied, hence plain. */
  lemma ExpandedPiecesPlain(h: DataHolder, peer: Address, x: string)
    requires WellFormed(h)
    ensures x == "*" || x == "*u" ==> forall i :: 0 <= i < |Split(Expand(h, peer, x))| ==> Plain(Split(Expand(h, peer, x))[i])
  {
    if x == "*" {
      SplitOfPlainNames(Keys(h.children));
    } else if x == "*u" {
      var cs := Contributions(h.children, peer);
      assert forall i :: 0 <= i < |cs| ==> Plain(cs[i]) by {
        forall i | 0 <= i < |cs| ensures Plain(cs[i]) {
          assert Plain(NodeName(h.children[i].node));
        }
      }
      SplitOfPlainNames(cs);
    }
  }

  /** Java's split of joined plain names yields plain names only. */
  lemma SplitOfPlainNames(ks: seq<string>)
    requires forall i :: 0 <= i < |ks| ==> Plain(ks[i])
    ensures forall i :: 0 <= i < |Split(Join(ks))| ==> Plain(Split(Join(ks))[i])
  {
    JoinHasComma(ks);
    if |ks| >= 2 {
      SplitJoin(ks);
    }
  }

  /**
   * getDataObject(connection, h, s, buf, initial, wrap), with the buffer
   * given as its remaining strings `tokens` and cursor `pos`. A call never
   * removes anything from the caller's list and never moves the cursor back.
   */
  function Resolve(peer: Address, h: DataHolder, s: Option<string>, tokens: seq<string>, pos: nat,
                   initial: seq<Item>, wrap: bool): (r: Resolution)
    requires WellFormed(h)
    ensures initial <= r.list && pos <= r.pos
    decreases h, Rank(s), 1
  {
    if s.None? && pos >= |tokens| then
      // reading failed: every child goes in, and the call succeeds
      Resolution(ReturnsInitial, initial + Fallbacks(h.children, wrap), pos)
    else
      var read := if s.Some? then s.value else tokens[pos];
      var next := if s.Some? then pos else pos + 1;
      var name := Expand(h, peer, read);
      if ',' in name then
        ExpandedPiecesPlain(h, peer, read);
        ResolvePieces(peer, h, Split(name), tokens, next, initial)
      else
        ResolveName(peer, h, name, tokens, next, initial, wrap)
  }

  /** The comma loop: each piece with a fresh list and no wrapping; a null piece ends the call with null. */
  function ResolvePieces(peer: Address, h: DataHolder, ps: seq<string>, tokens: seq<string>, pos: nat,
                         acc: seq<Item>): (r: Resolution)
    requires WellFormed(h)
    requires forall i :: 0 <= i < |ps| ==> ',' !in ps[i]
    ensures acc <= r.list && pos <= r.pos
    ensures !r.returned.ReturnsSingleton?
    decreases h, PiecesRank(ps), 0, |ps|
  {
    if ps == [] then Resolution(ReturnsInitial, acc, pos)
    else
      var first := Resolve(peer, h, Some(ps[0]), tokens, pos, [], false);
      assert PiecesRank(ps[1..]) <= PiecesRank(ps) by {
        if PiecesRank(ps[1..]) == 3 {
          var i :| 0 <= i < |ps[1..]| && (ps[1..][i] == "*" || ps[1..][i] == "*u");
          assert ps[i + 1] == ps[1..][i];
        }
      }
      match Contents(first)
      case None => Resolution(ReturnsNull, acc, first.pos)
      case Some(items) => ResolvePieces(peer, h, ps[1..], tokens, first.pos, acc + items)
  }

  /** A single name: a miss is null, a leaf is appended, a sub-holder is wrapped or resolved from the buffer. */
  function ResolveName(peer: Address, h: DataHolder, name: string, tokens: seq<string>, pos: nat,
                       initial: seq<Item>, wrap: bool): (r: Resolution)
    requires WellFormed(h)
    ensures initial <= r.list && pos <= r.pos
    decreases h, 0, 0
  {
    match FindKey(h.children, name)
    case None => Resolution(ReturnsNull, initial, pos)
    case Some(i) =>
      match h.children[i].node
      case Leaf(o) => Resolution(ReturnsInitial, initial + [Object(o)], pos)
      case Sub(child) =>
        if wrap then Resolution(ReturnsInitial, initial + [Wrap(child)], pos)
        else
          assert h.children[i] in h.children;
          var nested := Resolve(peer, child, None, tokens, pos, [], false);
          match Contents(nested)
          case None => Resolution(ReturnsSingleton(Wrap(child)), initial, nested.pos)
          case Some(items) => Resolution(ReturnsInitial, initial + items, nested.pos)
  }

  // ---------------------------------------------------------------------
  // The imperative procedure

  /** The request buffer: its strings and a read cursor. */
  class DeependBuf {
    const tokens: seq<string>
    var pos: nat

    constructor (tokens: seq<string>)
      ensures this.tokens == tokens && pos == 0
    {
      this.tokens := tokens;
      pos := 0;
    }

    /** getString(): the next string, or None where the Java method throws. */
    method GetString() returns (t: Option<string>)
      modifies this
      ensures old(pos) < |tokens| ==> t == Some(tokens[old(pos)]) && pos == old(pos) + 1
      ensures old(pos) >= |tokens| ==> t == None && pos == old(pos)
    {
      if pos < |tokens| {
        t := Some(tokens[pos]);
        pos := pos + 1;
      } else {
        t := None;
      }
    }
  }

  /** A mutable list of data objects (java.util.List<DataObject>). */
  class DataList {
    var items: seq<Item>

    constructor ()
      ensures items == []
    {
      items := [];
    }

    method Add(x: Item)
      modifies this
      ensures items == old(items) + [x]
    {
      items := items + [x];
    }

    method AddAll(xs: seq<Item>)
      modifies this
      ensures items == old(items) + xs
    {
      items := items + xs;
    }
  }

  /** The "*" expansion: the holder's keys in iteration order, with "," between them. */
  method StarSelector(holder: DataHolder) returns (name: string)
    ensures name == Join(Keys(holder.children))
  {
    var keys := Keys(holder.children);
    var newName := "";
    var i := 0;
    while i < |keys|
      invariant 0 <= i <= |keys|
      invariant newName == if i == 0 then "" else if i < |keys| then Join(keys[..i]) + "," else Join(keys)
    {
      if i > 0 {
        JoinSnoc(keys[..i], keys[i]);
        assert keys[..i] + [keys[i]] == keys[..i + 1];
      }
      newName := newName + keys[i];
      if i + 1 < |keys| {
        newName := newName + ",";
      } else {
        assert keys[..i + 1] == keys;
      }
      i := i + 1;
    }
    name := newName;
  }

  /** The builder of the "*u" loop ends in "," exactly when the holder has children. */
  lemma {:induction false} ChangedOnlyRawIsJoin(cs: seq<Entry>, peer: Address)
    ensures cs == [] ==> ChangedOnlyRaw(cs, peer) == ""
    ensures cs != [] ==> ChangedOnlyRaw(cs, peer) == Join(Contributions(cs, peer)) + ","
    decreases |cs|
  {
    if cs != [] {
      var init := cs[..|cs| - 1];
      var c := Contribution(cs[|cs| - 1], peer);
      ChangedOnlyRawIsJoin(init, peer);
      assert Contributions(cs, peer) == Contributions(init, peer) + [c];
      if init != [] {
        JoinSnoc(Contributions(init, peer), c);
      } else {
        assert Contributions(cs, peer) == [c];
      }
    }
  }

  /**
   * The "*u" expansion as the source writes it: every child adds its
   * contribution and a ",", then one trailing "," is cut. The result is the
   * contributions joined with ",", one piece per child, empty for a
   * sub-holder that does not need an update.
   */
  method ChangedOnlySelector(peer: Address, holder: DataHolder) returns (name: string)
    ensures name == Join(Contributions(holder.children, peer))
  {
    var cs := holder.children;
    var newName := "";
    for i := 0 to |cs|
      invariant newName == ChangedOnlyRaw(cs[..i], peer)
    {
      assert cs[..i + 1][..i] == cs[..i];
      newName := newName + Contribution(cs[i], peer) + ",";
    }
    assert cs[..|cs|] == cs;
    ChangedOnlyRawIsJoin(cs, peer);
    if |newName| > 0 && newName[|newName| - 1] == ',' {
      name := newName[..|newName| - 1];
    } else {
      name := newName;
    }
  }

  /** The heap state after a call agrees with the specification `res` of that call. */
  predicate Realizes(r: DataList?, list: DataList, buf: DeependBuf, res: Resolution)
    reads r, list, buf
  {
    && buf.pos == res.pos
    && list.items == res.list
    && (r == null <==> res.returned == ReturnsNull)
    && (res.returned == ReturnsInitial ==> r == list)
    && (res.returned.ReturnsSingleton? ==> r != null && r.items == [res.returned.wrapper])
  }

  /**
   * DataUtil.getDataObject. It appends into `initialList` in place, reads
   * from the shared `buf`, and does exactly what `Resolve` describes: the
   * cursor and the caller's list end as `Resolve` says, and the returned
   * list is null, the caller's list, or a fresh one-element list.
   */
  method GetDataObject(peer: Address, holder: DataHolder, s: Option<string>, buf: DeependBuf,
                       initialList: DataList, wrapHolder: bool) returns (r: DataList?)
    requires WellFormed(holder)
    modifies buf, initialList
    ensures Realizes(r, initialList, buf, Resolve(peer, holder, s, buf.tokens, old(buf.pos), old(initialList.items), wrapHolder))
    ensures Resolve(peer, holder, s, buf.tokens, old(buf.pos), old(initialList.items), wrapHolder).returned.ReturnsSingleton? ==> fresh(r)
    decreases holder, Rank(s), 1
  {
    var name: string;
    if s.None? {
      var t := buf.GetString();
      if t.None? {
        AppendFallbacks(holder, initialList, wrapHolder);
        return initialList;
      }
      name := t.value;
    } else {
      name := s.value;
    }
    ghost var read := name;
    if name == "*" {
      name := StarSelector(holder);
    } else if name == "*u" {
      name := ChangedOnlySelector(peer, holder);
    }
    assert name == Expand(holder, peer, read);
    if ',' in name {
      ExpandedPiecesPlain(holder, peer, read);
      PiecesRankBelow(holder, peer, s, read);
      r := GetEachPiece(peer, holder, Split(name), buf, initialList);
    } else {
      r := GetByName(peer, holder, name, buf, initialList, wrapHolder);
    }
  }

  /** The pieces of an expanded selector rank no higher than the selector itself. */
  lemma PiecesRankBelow(h: DataHolder, peer: Address, s: Option<string>, read: string)
    requires WellFormed(h)
    requires s.Some? ==> read == s.value
    requires ',' in Expand(h, peer, read)
    ensures PiecesRank(Split(Expand(h, peer, read))) <= Rank(s)
  {
    var ps := Split(Expand(h, peer, read));
    if s.Some? && ',' !in read {
      assert read == "*" || read == "*u";
      ExpandedPiecesPlain(h, peer, read);
      assert forall i :: 0 <= i < |ps| ==> Plain(ps[i]);
    }
  }

  /** The catch branch of a failed read: every child of the holder, in iteration order. */
  method AppendFallbacks(holder: DataHolder, initialList: DataList, wrapHolder: bool)
    modifies initialList
    ensures initialList.items == old(initialList.items) + Fallbacks(holder.children, wrapHolder)
  {
    var cs := holder.children;
    for i := 0 to |cs|
      invariant initialList.items == old(initialList.items) + Fallbacks(cs[..i], wrapHolder)
    {
      assert cs[..i + 1][..i] == cs[..i];
      match cs[i].node
      case Leaf(o) =>
        initialList.Add(Object(o));
      case Sub(c) =>
        if !wrapHolder {
          initialList.Add(Object(c.fallback));
        } else {
          initialList.Add(Wrap(c));
        }
    }
    assert cs[..|cs|] == cs;
  }

  /** The comma loop of getDataObject. */
  method GetEachPiece(peer: Address, holder: DataHolder, pieces: seq<string>, buf: DeependBuf,
                      initialList: DataList) returns (r: DataList?)
    requires WellFormed(holder)
    requires forall i :: 0 <= i < |pieces| ==> ',' !in pieces[i]
    modifies buf, initialList
    ensures Realizes(r, initialList, buf, ResolvePieces(peer, holder, pieces, buf.tokens, old(buf.pos), old(initialList.items)))
    decreases holder, PiecesRank(pieces), 0
  {
    var i := 0;
    while i < |pieces|
      invariant 0 <= i <= |pieces|
      invariant ResolvePieces(peer, holder, pieces, buf.tokens, old(buf.pos), old(initialList.items))
             == ResolvePieces(peer, holder, pieces[i..], buf.tokens, buf.pos, initialList.items)
    {
      assert pieces[i..][0] == pieces[i] && pieces[i..][1..] == pieces[i + 1..];
      assert Rank(Some(pieces[i])) < PiecesRank(pieces);
      var pieceList := new DataList();
      var part := GetDataObject(peer, holder, Some(pieces[i]), buf, pieceList, false);
      if part == null {
        return null;
      }
      initialList.AddAll(part.items);
      i := i + 1;
    }
    return initialList;
  }

  /** The single-name branch of getDataObject. */
  method GetByName(peer: Address, holder: DataHolder, name: string, buf: DeependBuf,
                   initialList: DataList, wrapHolder: bool) returns (r: DataList?)
    requires WellFormed(holder)
    modifies buf, initialList
    ensures Realizes(r, initialList, buf, ResolveName(peer, holder, name, buf.tokens, old(buf.pos), old(initialList.items), wrapHolder))
    ensures ResolveName(peer, holder, name, buf.tokens, old(buf.pos), old(initialList.items), wrapHolder).returned.ReturnsSingleton? ==> fresh(r)
    decreases holder, 0, 0
  {
    var found := FindKey(holder.children, name);
    if found.None? {
      return null;
    }
    var k := found.value;
    match holder.children[k].node {
      case Leaf(o) =>
        initialList.Add(Object(o));
      case Sub(child) =>
        assert holder.children[k] in holder.children;
        if !wrapHolder {
          var childList := new DataList();
          var newList := GetDataObject(peer, child, None, buf, childList, false);
          if newList == null {
            // Collections.singletonList(new HolderWrapper(child)); the catch at the
            // same place has the same result, but nothing in this model throws
            r := new DataList();
            r.Add(Wrap(child));
            return r;
          }
          initialList.AddAll(newList.items);
        } else {
          initialList.Add(Wrap(child));
        }
    }
    return initialList;
  }
}
