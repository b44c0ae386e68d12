/**
 JSON documents as trees and as the token stream a decoder yields for them.
 The tree keeps duplicate keys and their order.
 */
module JsonTokens {
  import opened Basics

  /** `Scalar` stands for a number or a boolean. */
  datatype Json =
    | Null
    | Scalar
    | Text(s: string)
    | Array(items: seq<Json>)
    | Object(members: seq<Member>)

  datatype Member = Member(key: string, value: Json)

  datatype Token = NullToken | ScalarToken | TextToken(s: string) | Open(isObject: bool) | Close(isObject: bool)

  function Tokens(j: Json): (ts: seq<Token>)
    ensures ts != [] && !ts[0].Close?
    decreases j, 0
  {
    match j
    case Null => [NullToken]
    case Scalar => [ScalarToken]
    case Text(s) => [TextToken(s)]
    case Array(items) => [Open(false)] + ItemTokens(items) + [Close(false)]
    case Object(members) => [Open(true)] + MemberTokens(members) + [Close(true)]
  }

  function ItemTokens(items: seq<Json>): seq<Token>
    decreases items, 1
  {
    if items == [] then [] else Tokens(items[0]) + ItemTokens(items[1..])
  }

  function MemberTokens(members: seq<Member>): seq<Token>
    decreases members, 1
  {
    if members == [] then []
    else [TextToken(members[0].key)] + Tokens(members[0].value) + MemberTokens(members[1..])
  }

  /** How many containers are nested in a value, its own included. */
  function Depth(j: Json): nat
    decreases j, 0
  {
    match j
    case Array(items) => 1 + ItemsDepth(items)
    case Object(members) => 1 + MembersDepth(members)
    case _ => 0
  }

  function ItemsDepth(items: seq<Json>): nat
    decreases items, 1
  {
    if items == [] then 0 else
      var first, others := Depth(items[0]), ItemsDepth(items[1..]);
      if first < others then others else first
  }

  function MembersDepth(members: seq<Member>): nat
    decreases members, 1
  {
    if members == [] then 0 else
      var first, others := Depth(members[0].value), MembersDepth(members[1..]);
      if first < others then others else first
  }

  /** The streaming decoder: the tokens it has not yet handed out. */
  class Decoder {
    var rest: seq<Token>

    constructor (tokens: seq<Token>)
      ensures rest == tokens
    {
      rest := tokens;
    }

    /** The next token, or an error at the end of the input. */
    method Token() returns (t: Option<Token>)
      modifies this
      ensures old(rest) == [] ==> t == None && rest == []
      ensures old(rest) != [] ==> t == Some(old(rest)[0]) && rest == old(rest)[1..]
    {
      if rest == [] {
        return None;
      }
      t := Some(rest[0]);
      rest := rest[1..];
    }

    /** Is there another element in the current array or object? */
    predicate More()
      reads this
    {
      rest != [] && !rest[0].Close?
    }
  }

  // ------------------------------------------------------------------ skipping

  /** The decoder's own limit on nested containers, kept per root value. */
  const MAX_VALUE_DEPTH: nat := 10000

  /** What skipping leaves, with `open` containers open and `enclosing` around the value. */
  function SkipRun(ts: seq<Token>, open: nat, enclosing: nat): Option<seq<Token>>
    decreases |ts|
  {
    if open == 0 then Some(ts)
    else if ts == [] then None
    else
      match ts[0]
      case Open(_) =>
        if open + 1 + enclosing > MAX_VALUE_DEPTH then None else SkipRun(ts[1..], open + 1, enclosing)
      case Close(_) => SkipRun(ts[1..], open - 1, enclosing)
      case _ => SkipRun(ts[1..], open, enclosing)
  }

  function SkipRest(t: Token, ts: seq<Token>, enclosing: nat): Option<seq<Token>> {
    if !t.Open? then Some(ts)
    else if 1 + enclosing > MAX_VALUE_DEPTH then None
    else SkipRun(ts, 1, enclosing)
  }

  /** Consumes the rest of a value whose first token `t` has been read. */
  method SkipToken(dec: Decoder, t: Token, enclosing: nat) returns (ok: bool)
    requires !t.Close?
    modifies dec
    ensures ok == SkipRest(t, old(dec.rest), enclosing).Some?
    ensures ok ==> dec.rest == SkipRest(t, old(dec.rest), enclosing).value
  {
    if !t.Open? {
      return true;
    }
    var stack := [t];
    if |stack| + enclosing > MAX_VALUE_DEPTH {
      return false;
    }
    while |stack| > 0
      invariant SkipRun(dec.rest, |stack|, enclosing) == SkipRun(old(dec.rest), 1, enclosing)
      decreases |dec.rest|, |stack|
    {
      var next := dec.Token();
      if next.None? {
        return false;
      }
      match next.value {
        case Open(_) =>
          stack := stack + [next.value];
          if |stack| + enclosing > MAX_VALUE_DEPTH {
            return false;
          }
        case Close(_) => stack := stack[..|stack| - 1];
        case _ =>
      }
    }
    return true;
  }

  method SkipValue(dec: Decoder, enclosing: nat) returns (ok: bool)
    requires dec.rest != [] ==> !dec.rest[0].Close?
    modifies dec
    ensures ok == (old(dec.rest) != [] && SkipRest(old(dec.rest)[0], old(dec.rest)[1..], enclosing).Some?)
    ensures ok ==> dec.rest == SkipRest(old(dec.rest)[0], old(dec.rest)[1..], enclosing).value
  {
    var t := dec.Token();
    if t.None? {
      return false;
    }
    ok := SkipToken(dec, t.value, enclosing);
  }

  // The iterative skip consumes exactly one value, and rejects it exactly for its depth.

  lemma {:induction false} SkipOpenValue(j: Json, rest: seq<Token>, open: nat, enclosing: nat)
    requires 0 < open && open + enclosing <= MAX_VALUE_DEPTH
    ensures SkipRun(Tokens(j) + rest, open, enclosing) ==
            if open + Depth(j) + enclosing > MAX_VALUE_DEPTH then None else SkipRun(rest, open, enclosing)
    decreases j, 0
  {
    var ts := Tokens(j) + rest;
    match j {
      case Array(items) =>
        assert ts[1..] == ItemTokens(items) + ([Close(false)] + rest);
        if open + 1 + enclosing <= MAX_VALUE_DEPTH {
          SkipItems(items, [Close(false)] + rest, open + 1, enclosing);
          assert ([Close(false)] + rest)[1..] == rest;
        }
      case Object(members) =>
        assert ts[1..] == MemberTokens(members) + ([Close(true)] + rest);
        if open + 1 + enclosing <= MAX_VALUE_DEPTH {
          SkipMembers(members, [Close(true)] + rest, open + 1, enclosing);
          assert ([Close(true)] + rest)[1..] == rest;
        }
      case _ =>
        assert ts[1..] == rest;
    }
  }

  lemma {:induction false} SkipItems(items: seq<Json>, rest: seq<Token>, open: nat, enclosing: nat)
    requires 0 < open && open + enclosing <= MAX_VALUE_DEPTH
    ensures SkipRun(ItemTokens(items) + rest, open, enclosing) ==
            if open + ItemsDepth(items) + enclosing > MAX_VALUE_DEPTH then None else SkipRun(rest, open, enclosing)
    decreases items, 1
  {
    if items == [] {
      assert ItemTokens(items) + rest == rest;
    } else {
      assert ItemTokens(items) + rest == Tokens(items[0]) + (ItemTokens(items[1..]) + rest);
      SkipOpenValue(items[0], ItemTokens(items[1..]) + rest, open, enclosing);
      SkipItems(items[1..], rest, open, enclosing);
    }
  }

  lemma {:induction false} SkipMembers(members: seq<Member>, rest: seq<Token>, open: nat, enclosing: nat)
    requires 0 < open && open + enclosing <= MAX_VALUE_DEPTH
    ensures SkipRun(MemberTokens(members) + rest, open, enclosing) ==
            if open + MembersDepth(members) + enclosing > MAX_VALUE_DEPTH then None else SkipRun(rest, open, enclosing)
    decreases members, 1
  {
    if members == [] {
      assert MemberTokens(members) + rest == rest;
    } else {
      var later := MemberTokens(members[1..]) + rest;
      FirstMember(members, rest);
      SkipText(members[0].key, Tokens(members[0].value) + later, open, enclosing);
      SkipOpenValue(members[0].value, later, open, enclosing);
      SkipMembers(members[1..], rest, open, enclosing);
    }
  }

  lemma FirstMember(members: seq<Member>, rest: seq<Token>)
    requires members != []
    ensures MemberTokens(members) + rest ==
            [TextToken(members[0].key)] + (Tokens(members[0].value) + (MemberTokens(members[1..]) + rest))
  {
  }

  lemma SkipText(s: string, rest: seq<Token>, open: nat, enclosing: nat)
    requires 0 < open
    ensures SkipRun([TextToken(s)] + rest, open, enclosing) == SkipRun(rest, open, enclosing)
  {
    assert ([TextToken(s)] + rest)[1..] == rest;
  }

  /**
   Skipping from a value's first token consumes exactly that value, and fails
   exactly when its nesting plus the enclosing depth exceeds the limit.
   */
  lemma SkipIsExact(j: Json, rest: seq<Token>, enclosing: nat)
    requires enclosing <= MAX_VALUE_DEPTH
    ensures var ts := Tokens(j) + rest;
            SkipRest(ts[0], ts[1..], enclosing) ==
            if Depth(j) + enclosing > MAX_VALUE_DEPTH then None else Some(rest)
  {
    var ts := Tokens(j) + rest;
    match j {
      case Array(items) =>
        assert ts[1..] == ItemTokens(items) + ([Close(false)] + rest);
        if 1 + enclosing <= MAX_VALUE_DEPTH {
          SkipItems(items, [Close(false)] + rest, 1, enclosing);
          assert ([Close(false)] + rest)[1..] == rest;
          assert SkipRun(rest, 0, enclosing) == Some(rest);
        }
      case Object(members) =>
        assert ts[1..] == MemberTokens(members) + ([Close(true)] + rest);
        if 1 + enclosing <= MAX_VALUE_DEPTH {
          SkipMembers(members, [Close(true)] + rest, 1, enclosing);
          assert ([Close(true)] + rest)[1..] == rest;
          assert SkipRun(rest, 0, enclosing) == Some(rest);
        }
      case _ =>
        assert ts[1..] == rest;
    }
  }
}
