/** The scan for repeated object names in a Directory response, over the decoder's token stream. */
module StrictJson {
  import opened Text

  datatype Token = OpenObject | CloseObject | OpenArray | CloseArray | Str(value: string) | Scalar(text: string)

  datatype Json = Leaf(token: Token) | Array(items: Items) | Object(members: Members)
  datatype Items = NoItems | Item(head: Json, tail: Items)
  datatype Members = NoMembers | Member(name: string, value: Json, rest: Members)

  predicate IsLeaf(t: Token) {
    t.Str? || t.Scalar?
  }

  predicate WellFormed(j: Json) {
    match j
    case Leaf(t) => IsLeaf(t)
    case Array(items) => WellFormedItems(items)
    case Object(members) => WellFormedMembers(members)
  }

  predicate WellFormedItems(items: Items) {
    items.Item? ==> WellFormed(items.head) && WellFormedItems(items.tail)
  }

  predicate WellFormedMembers(members: Members) {
    members.Member? ==> WellFormed(members.value) && WellFormedMembers(members.rest)
  }

  function Tokens(j: Json): seq<Token> {
    match j
    case Leaf(t) => [t]
    case Array(items) => [OpenArray] + ItemTokens(items) + [CloseArray]
    case Object(members) => [OpenObject] + MemberTokens(members) + [CloseObject]
  }

  function ItemTokens(items: Items): seq<Token> {
    if items.NoItems? then [] else Tokens(items.head) + ItemTokens(items.tail)
  }

  function MemberTokens(members: Members): seq<Token> {
    if members.NoMembers? then []
    else [Str(members.name)] + Tokens(members.value) + MemberTokens(members.rest)
  }

  // ---- what the scan should find ----

  function Names(members: Members): seq<string> {
    if members.NoMembers? then [] else [members.name] + Names(members.rest)
  }

  ghost predicate Repeats(names: seq<string>) {
    exists i, k :: 0 <= i < k < |names| && names[i] == names[k]
  }

  /** Some object at any depth repeats a name. */
  ghost predicate HasDuplicate(j: Json) {
    match j
    case Leaf(_) => false
    case Array(items) => ItemsHaveDuplicate(items)
    case Object(members) => Repeats(Names(members)) || MembersHaveDuplicate(members)
  }

  ghost predicate ItemsHaveDuplicate(items: Items) {
    items.Item? && (HasDuplicate(items.head) || ItemsHaveDuplicate(items.tail))
  }

  ghost predicate MembersHaveDuplicate(members: Members) {
    members.Member? && (HasDuplicate(members.value) || MembersHaveDuplicate(members.rest))
  }

  // ---- the scan on what is left of the stream: None reports a duplicate or malformed input ----

  predicate HasMore(ts: seq<Token>) {
    ts != [] && ts[0] != CloseObject && ts[0] != CloseArray
  }

  function Scan(ts: seq<Token>): (rest: Option<seq<Token>>)
    ensures rest.Some? ==> |rest.value| < |ts|
    decreases |ts|, 0
  {
    if ts == [] then None
    else if IsLeaf(ts[0]) then Some(ts[1..])
    else if ts[0] == OpenObject then ScanMembers(ts[1..], {})
    else if ts[0] == OpenArray then ScanItems(ts[1..])
    else None
  }

  function ScanMembers(ts: seq<Token>, seen: set<string>): (rest: Option<seq<Token>>)
    ensures rest.Some? ==> |rest.value| < |ts|
    decreases |ts|, 1
  {
    if HasMore(ts) then
      if !ts[0].Str? || ts[0].value in seen then None
      else
        var next := Scan(ts[1..]);
        if next.None? then None else ScanMembers(next.value, seen + {ts[0].value})
    else if ts != [] && ts[0] == CloseObject then Some(ts[1..])
    else None
  }

  function ScanItems(ts: seq<Token>): (rest: Option<seq<Token>>)
    ensures rest.Some? ==> |rest.value| < |ts|
    decreases |ts|, 1
  {
    if HasMore(ts) then
      var next := Scan(ts);
      if next.None? then None else ScanItems(next.value)
    else if ts != [] && ts[0] == CloseArray then Some(ts[1..])
    else None
  }

  class Decoder {
    const tokens: seq<Token>
    var position: nat

    constructor (tokens: seq<Token>)
      ensures Valid() && this.tokens == tokens && Left() == tokens
    {
      this.tokens := tokens;
      position := 0;
    }

    ghost predicate Valid()
      reads this
    {
      position <= |tokens|
    }

    ghost function Left(): seq<Token>
      requires Valid()
      reads this
    {
      tokens[position..]
    }

    /** None at the end of the stream. */
    method Next() returns (token: Option<Token>)
      requires Valid()
      modifies this
      ensures Valid()
      ensures old(Left()) == [] ==> token == None && Left() == []
      ensures old(Left()) != [] ==> token == Some(old(Left())[0]) && Left() == old(Left())[1..]
      ensures old(position) <= position && (token.Some? ==> old(position) < position)
    {
      if position == |tokens| {
        return None;
      }
      token := Some(tokens[position]);
      position := position + 1;
    }

    method More() returns (more: bool)
      requires Valid()
      ensures more == HasMore(Left())
    {
      more := position < |tokens| && tokens[position] != CloseObject && tokens[position] != CloseArray;
    }

    /** The recursive scan; true reports trouble, false leaves the decoder just past the value. */
    method ScanValue() returns (duplicate: bool)
      requires Valid()
      modifies this
      ensures Valid() && old(position) <= position
      ensures duplicate <==> Scan(old(Left())).None?
      ensures !duplicate ==> Scan(old(Left())) == Some(Left()) && old(position) < position
      decreases |tokens| - position, 0
    {
      var token := Next();
      if token.None? {
        return true;
      }
      if IsLeaf(token.value) {
        return false;
      }
      match token.value
      case OpenObject => duplicate := ScanObjectRest();
      case OpenArray => duplicate := ScanArrayRest();
      case _ => return true;
    }

    method ScanObjectRest() returns (duplicate: bool)
      requires Valid()
      modifies this
      ensures Valid() && old(position) <= position
      ensures duplicate <==> ScanMembers(old(Left()), {}).None?
      ensures !duplicate ==> ScanMembers(old(Left()), {}) == Some(Left()) && old(position) < position
      decreases |tokens| - position, 1
    {
      var seen: set<string> := {};
      var more := More();
      while more
        invariant Valid() && old(position) <= position
        invariant more == HasMore(Left())
        invariant ScanMembers(Left(), seen) == ScanMembers(old(Left()), {})
        decreases |tokens| - position
      {
        var name := Next();
        if name.None? || !name.value.Str? {
          return true;
        }
        if name.value.value in seen {
          return true;
        }
        seen := seen + {name.value.value};
        var bad := ScanValue();
        if bad {
          return true;
        }
        more := More();
      }
      var end := Next();
      return end != Some(CloseObject);
    }

    method ScanArrayRest() returns (duplicate: bool)
      requires Valid()
      modifies this
      ensures Valid() && old(position) <= position
      ensures duplicate <==> ScanItems(old(Left())).None?
      ensures !duplicate ==> ScanItems(old(Left())) == Some(Left()) && old(position) < position
      decreases |tokens| - position, 1
    {
      var more := More();
      while more
        invariant Valid() && old(position) <= position
        invariant more == HasMore(Left())
        invariant ScanItems(Left()) == ScanItems(old(Left()))
        decreases |tokens| - position
      {
        var bad := ScanValue();
        if bad {
          return true;
        }
        more := More();
      }
      var end := Next();
      return end != Some(CloseArray);
    }
  }

  // ---- the scan finds exactly the duplicates ----

  /** Some name of the members is in `seen` or comes twice. */
  predicate RepeatsWith(members: Members, seen: set<string>) {
    members.Member? && (members.name in seen || RepeatsWith(members.rest, seen + {members.name}))
  }

  ghost predicate SomeIn(names: seq<string>, seen: set<string>) {
    exists i :: 0 <= i < |names| && names[i] in seen
  }

  lemma ConsRepeats(name: string, more: seq<string>)
    requires SomeIn(more, {name}) || Repeats(more)
    ensures Repeats([name] + more)
  {
    var names := [name] + more;
    if Repeats(more) {
      var i, k :| 0 <= i < k < |more| && more[i] == more[k];
      assert names[i + 1] == names[k + 1];
    } else {
      var i :| 0 <= i < |more| && more[i] in {name};
      assert names[0] == names[i + 1];
    }
  }

  lemma RepeatsCons(name: string, more: seq<string>)
    ensures Repeats([name] + more) <==> SomeIn(more, {name}) || Repeats(more)
  {
    var names := [name] + more;
    if Repeats(names) {
      var i, k :| 0 <= i < k < |names| && names[i] == names[k];
      assert names[k] == more[k - 1];
      if i > 0 {
        assert names[i] == more[i - 1];
        assert Repeats(more);
      }
    }
    if SomeIn(more, {name}) || Repeats(more) {
      ConsRepeats(name, more);
    }
  }

  lemma SomeInCons(name: string, more: seq<string>, seen: set<string>)
    ensures SomeIn([name] + more, seen) <==> name in seen || SomeIn(more, seen)
    ensures SomeIn(more, seen + {name}) <==> SomeIn(more, seen) || SomeIn(more, {name})
  {
    var names := [name] + more;
    assert names[0] == name && forall i | 0 <= i < |more| :: names[i + 1] == more[i];
    if SomeIn(names, seen) {
      var i :| 0 <= i < |names| && names[i] in seen;
      assert i > 0 ==> names[i] == more[i - 1];
    }
  }

  lemma {:induction false} RepeatsWithMeans(members: Members, seen: set<string>)
    ensures RepeatsWith(members, seen) <==> Repeats(Names(members)) || SomeIn(Names(members), seen)
    decreases members
  {
    if members.Member? {
      RepeatsWithMeans(members.rest, seen + {members.name});
      RepeatsCons(members.name, Names(members.rest));
      SomeInCons(members.name, Names(members.rest), seen);
    }
  }

  lemma {:induction false} ScanOfValue(j: Json, rest: seq<Token>)
    requires WellFormed(j)
    ensures Scan(Tokens(j) + rest) == if HasDuplicate(j) then None else Some(rest)
    ensures HasMore(Tokens(j) + rest)
    decreases j
  {
    var ts := Tokens(j) + rest;
    match j
    case Leaf(t) =>
      assert ts[1..] == rest;
    case Array(items) =>
      ScanOfItems(items, rest);
      assert ts[1..] == ItemTokens(items) + ([CloseArray] + rest);
    case Object(members) =>
      ScanOfMembers(members, {}, rest);
      RepeatsWithMeans(members, {});
      assert !SomeIn(Names(members), {});
      assert ts[1..] == MemberTokens(members) + ([CloseObject] + rest);
  }

  lemma {:induction false} ScanOfItems(items: Items, rest: seq<Token>)
    requires WellFormedItems(items)
    ensures ScanItems(ItemTokens(items) + ([CloseArray] + rest)) == if ItemsHaveDuplicate(items) then None else Some(rest)
    decreases items
  {
    var end := [CloseArray] + rest;
    var ts := ItemTokens(items) + end;
    if items.NoItems? {
      assert ts == end && ts[1..] == rest;
    } else {
      assert ts == Tokens(items.head) + (ItemTokens(items.tail) + end);
      ScanOfValue(items.head, ItemTokens(items.tail) + end);
      ScanOfItems(items.tail, rest);
    }
  }

  lemma {:induction false} ScanOfMembers(members: Members, seen: set<string>, rest: seq<Token>)
    requires WellFormedMembers(members)
    ensures ScanMembers(MemberTokens(members) + ([CloseObject] + rest), seen) ==
            if RepeatsWith(members, seen) || MembersHaveDuplicate(members) then None else Some(rest)
    decreases members
  {
    var end := [CloseObject] + rest;
    var ts := MemberTokens(members) + end;
    if members.NoMembers? {
      assert ts == end && ts[1..] == rest;
    } else {
      assert ts[1..] == Tokens(members.value) + (MemberTokens(members.rest) + end);
      ScanOfValue(members.value, MemberTokens(members.rest) + end);
      ScanOfMembers(members.rest, seen + {members.name}, rest);
    }
  }

  // ---- and whatever it lets through is a value without duplicates ----

  lemma Regroup(a: seq<Token>, b: seq<Token>, c: seq<Token>, d: seq<Token>)
    ensures a + (b + (c + d)) == (a + b + c) + d
  {
  }

  lemma {:induction false} ScannedIsValue(ts: seq<Token>) returns (j: Json)
    requires Scan(ts).Some?
    ensures WellFormed(j) && !HasDuplicate(j) && ts == Tokens(j) + Scan(ts).value
    decreases |ts|, 0
  {
    if IsLeaf(ts[0]) {
      j := Leaf(ts[0]);
    } else if ts[0] == OpenObject {
      var members := ScannedIsMembers(ts[1..], {});
      RepeatsWithMeans(members, {});
      j := Object(members);
      assert !SomeIn(Names(members), {});
      assert ts == [OpenObject] + (MemberTokens(members) + ([CloseObject] + Scan(ts).value));
      Regroup([OpenObject], MemberTokens(members), [CloseObject], Scan(ts).value);
    } else {
      var items := ScannedIsItems(ts[1..]);
      j := Array(items);
      assert ts == [OpenArray] + (ItemTokens(items) + ([CloseArray] + Scan(ts).value));
      Regroup([OpenArray], ItemTokens(items), [CloseArray], Scan(ts).value);
    }
  }

  lemma {:induction false} ScannedIsItems(ts: seq<Token>) returns (items: Items)
    requires ScanItems(ts).Some?
    ensures WellFormedItems(items) && !ItemsHaveDuplicate(items)
    ensures ts == ItemTokens(items) + ([CloseArray] + ScanItems(ts).value)
    decreases |ts|, 1
  {
    if HasMore(ts) {
      var head := ScannedIsValue(ts);
      var tail := ScannedIsItems(Scan(ts).value);
      items := Item(head, tail);
    } else {
      items := NoItems;
      assert ts == [CloseArray] + ts[1..];
    }
  }

  lemma {:induction false} ScannedIsMembers(ts: seq<Token>, seen: set<string>) returns (members: Members)
    requires ScanMembers(ts, seen).Some?
    ensures WellFormedMembers(members) && !MembersHaveDuplicate(members) && !RepeatsWith(members, seen)
    ensures ts == MemberTokens(members) + ([CloseObject] + ScanMembers(ts, seen).value)
    decreases |ts|, 1
  {
    if HasMore(ts) {
      var value := ScannedIsValue(ts[1..]);
      var rest := ScannedIsMembers(Scan(ts[1..]).value, seen + {ts[0].value});
      members := Member(ts[0].value, value, rest);
      var end := [CloseObject] + ScanMembers(ts, seen).value;
      assert ts == [ts[0]] + (Tokens(value) + (MemberTokens(rest) + end));
      Regroup([ts[0]], Tokens(value), MemberTokens(rest), end);
    } else {
      members := NoMembers;
      assert ts == [CloseObject] + ts[1..];
    }
  }

  /** On the tokens of any value the scan reports exactly whether some object at any depth repeats a name. */
  lemma ScanRefinesTree(j: Json)
    requires WellFormed(j)
    ensures Scan(Tokens(j)) != Some([]) <==> HasDuplicate(j)
  {
    ScanOfValue(j, []);
    assert Tokens(j) + [] == Tokens(j);
  }

  /** On any token stream at all: what passes is one value without repeated names, and nothing else. */
  lemma PassesIffDuplicateFree(tokens: seq<Token>)
    ensures Scan(tokens) == Some([]) <==> exists j :: WellFormed(j) && !HasDuplicate(j) && Tokens(j) == tokens
  {
    if Scan(tokens) == Some([]) {
      var j := ScannedIsValue(tokens);
      assert tokens == Tokens(j);
    }
    if exists j :: WellFormed(j) && !HasDuplicate(j) && Tokens(j) == tokens {
      var j :| WellFormed(j) && !HasDuplicate(j) && Tokens(j) == tokens;
      ScanRefinesTree(j);
    }
  }

  /** duplicateJSONName: false exactly for the tokens of one value no object of which repeats a name. */
  method DuplicateJSONName(tokens: seq<Token>) returns (duplicate: bool)
    ensures !duplicate <==> exists j :: WellFormed(j) && !HasDuplicate(j) && Tokens(j) == tokens
  {
    PassesIffDuplicateFree(tokens);
    var decoder := new Decoder(tokens);
    var bad := decoder.ScanValue();
    if bad {
      return true;
    }
    var token := decoder.Next();
    return token.Some?;
  }
}
