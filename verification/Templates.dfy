/**
  UDT templates: expansion of a structure into its atomic member paths, over
  any template graph, and the lookup of a path's type. The two agree.
 */
module Templates {
  import opened Bytes

  datatype Member = Member(name: string, typeCode: U16, hidden: bool)

  /** The templates the client can fetch, by structure type; fetching may fail. */
  type Graph = U16 -> Option<seq<Member>>

  const MAX_DEPTH: nat := 10

  /** Bit 15 of a type code. */
  predicate IsStructure(typeCode: U16) {
    typeCode / 0x8000 == 1
  }

  predicate Visible(m: Member) {
    !m.hidden && m.name != ""
  }

  // ---------------------------------------------------------------- expansion

  datatype Listed = Listed(path: string, typeCode: U16)

  /** The atomic paths under one member. */
  function ExpandMember(get: Graph, base: string, m: Member, depth: nat): seq<Listed>
    requires depth > 0
    decreases depth, 0
  {
    if !Visible(m) then []
    else if IsStructure(m.typeCode) then
      match get(m.typeCode)
      case None => []
      case Some(members) => Expand(get, base + "." + m.name, members, 0, depth - 1)
    else [Listed(base + "." + m.name, m.typeCode)]
  }

  /** The atomic paths under the members from `from` on. */
  function Expand(get: Graph, base: string, members: seq<Member>, from: nat, depth: nat): seq<Listed>
    decreases depth, 1 + |members| - from
  {
    if depth == 0 || from >= |members| then []
    else ExpandMember(get, base, members[from], depth) + Expand(get, base, members, from + 1, depth)
  }

  function Paths(listed: seq<Listed>): seq<string> {
    seq(|listed|, k requires 0 <= k < |listed| => listed[k].path)
  }

  function Types(listed: seq<Listed>): seq<U16> {
    seq<U16>(|listed|, k requires 0 <= k < |listed| => listed[k].typeCode)
  }

  lemma {:induction false} ListAppend(xs: seq<Listed>, ys: seq<Listed>)
    ensures Paths(xs + ys) == Paths(xs) + Paths(ys) && Types(xs + ys) == Types(xs) + Types(ys)
  {
  }

  method ExpandMemberPaths(get: Graph, base: string, members: seq<Member>, depth: nat)
    returns (paths: seq<string>, types: seq<U16>)
    ensures paths == Paths(Expand(get, base, members, 0, depth)) && types == Types(Expand(get, base, members, 0, depth))
    decreases depth, 1
  {
    paths, types := [], [];
    if depth == 0 {
      return;
    }
    ghost var done: seq<Listed> := [];
    for i := 0 to |members|
      invariant paths == Paths(done) && types == Types(done)
      invariant Expand(get, base, members, 0, depth) == done + Expand(get, base, members, i, depth)
    {
      var morePaths, moreTypes := ExpandOne(get, base, members[i], depth);
      ListAppend(done, ExpandMember(get, base, members[i], depth));
      paths, types := paths + morePaths, types + moreTypes;
      done := done + ExpandMember(get, base, members[i], depth);
    }
  }

  method ExpandOne(get: Graph, base: string, m: Member, depth: nat) returns (paths: seq<string>, types: seq<U16>)
    requires depth > 0
    ensures paths == Paths(ExpandMember(get, base, m, depth)) && types == Types(ExpandMember(get, base, m, depth))
    decreases depth, 0
  {
    paths, types := [], [];
    if !Visible(m) {
      return;
    }
    var path := base + "." + m.name;
    if !IsStructure(m.typeCode) {
      return [path], [m.typeCode];
    }
    var nested := get(m.typeCode);
    if nested.Some? {
      paths, types := ExpandMemberPaths(get, path, nested.value, depth - 1);
    }
  }

  /** All atomic member paths of a structure type, to a depth of ten; nothing if its template cannot be had. */
  method GetAllStructMembers(get: Graph, typeCode: U16, base: string) returns (paths: Option<seq<string>>)
    ensures paths.Some? <==> IsStructure(typeCode) && get(typeCode).Some?
    ensures paths.Some? ==> paths.value == Paths(Expand(get, base, get(typeCode).value, 0, MAX_DEPTH))
  {
    if !IsStructure(typeCode) {
      return None;
    }
    var members := get(typeCode);
    if members.None? {
      return None;
    }
    var found, _ := ExpandMemberPaths(get, base, members.value, MAX_DEPTH);
    paths := Some(found);
  }

  // ---------------------------------------------------------------- reference: chains of members

  /** Member positions from the template down to an atomic member, each visible, at most `depth` of them. */
  predicate IsChain(get: Graph, members: seq<Member>, chain: seq<nat>, depth: nat)
    decreases depth
  {
    && chain != [] && depth > 0 && chain[0] < |members| && Visible(members[chain[0]])
    && var m := members[chain[0]];
       if |chain| == 1 then !IsStructure(m.typeCode)
       else IsStructure(m.typeCode) && get(m.typeCode).Some? && IsChain(get, get(m.typeCode).value, chain[1..], depth - 1)
  }

  /** Dotted names along a chain, and the type it ends in. */
  function Relative(get: Graph, members: seq<Member>, chain: seq<nat>, depth: nat): Listed
    requires IsChain(get, members, chain, depth)
    decreases depth
  {
    var m := members[chain[0]];
    if |chain| == 1 then Listed(m.name, m.typeCode)
    else
      var rest := Relative(get, get(m.typeCode).value, chain[1..], depth - 1);
      Listed(m.name + "." + rest.path, rest.typeCode)
  }

  function Below(base: string, listed: Listed): Listed {
    Listed(base + "." + listed.path, listed.typeCode)
  }

  /** Depth-first order: the first difference decides. */
  predicate Precedes(c: seq<nat>, d: seq<nat>) {
    c != [] && d != [] && (c[0] < d[0] || (c[0] == d[0] && Precedes(c[1..], d[1..])))
  }

  /** The chains in the order of expansion. */
  ghost function ChainsOfMember(get: Graph, members: seq<Member>, i: nat, depth: nat): seq<seq<nat>>
    requires depth > 0 && i < |members|
    decreases depth, 0
  {
    var m := members[i];
    if !Visible(m) then []
    else if IsStructure(m.typeCode) then
      match get(m.typeCode)
      case None => []
      case Some(nested) => Prefixed(i, Chains(get, nested, 0, depth - 1))
    else [[i]]
  }

  ghost function Chains(get: Graph, members: seq<Member>, from: nat, depth: nat): seq<seq<nat>>
    decreases depth, 1 + |members| - from
  {
    if depth == 0 || from >= |members| then []
    else ChainsOfMember(get, members, from, depth) + Chains(get, members, from + 1, depth)
  }

  function Prefixed(i: nat, chains: seq<seq<nat>>): (r: seq<seq<nat>>)
    ensures |r| == |chains|
  {
    seq(|chains|, k requires 0 <= k < |chains| => [i] + chains[k])
  }

  /** Position `k` of the expansion is the listing of chain `k`, and every chain is genuine. */
  ghost predicate Lists(get: Graph, base: string, members: seq<Member>, depth: nat, from: nat, listed: seq<Listed>,
                        chains: seq<seq<nat>>)
  {
    && |listed| == |chains|
    && forall k | 0 <= k < |chains| ::
         && IsChain(get, members, chains[k], depth) && chains[k][0] >= from
         && listed[k] == Below(base, Relative(get, members, chains[k], depth))
  }

  lemma {:induction false} ChainUnderMember(get: Graph, base: string, members: seq<Member>, i: nat, depth: nat,
                                            chain: seq<nat>)
    requires i < |members| && depth > 0 && Visible(members[i]) && IsStructure(members[i].typeCode)
    requires get(members[i].typeCode).Some? && IsChain(get, get(members[i].typeCode).value, chain, depth - 1)
    ensures IsChain(get, members, [i] + chain, depth)
    ensures Below(base, Relative(get, members, [i] + chain, depth)) ==
            Below(base + "." + members[i].name, Relative(get, get(members[i].typeCode).value, chain, depth - 1))
  {
    assert ([i] + chain)[1..] == chain;
    var rest := Relative(get, get(members[i].typeCode).value, chain, depth - 1);
    var name := members[i].name;
    assert base + "." + (name + "." + rest.path) == base + "." + name + "." + rest.path;
  }

  lemma {:induction false} MemberLists(get: Graph, base: string, members: seq<Member>, i: nat, depth: nat)
    requires depth > 0 && i < |members|
    ensures Lists(get, base, members, depth, i, ExpandMember(get, base, members[i], depth),
                  ChainsOfMember(get, members, i, depth))
    ensures forall k | 0 <= k < |ChainsOfMember(get, members, i, depth)| :: ChainsOfMember(get, members, i, depth)[k][0] == i
    decreases depth, 0
  {
    hide Below, Relative;
    var m := members[i];
    if Visible(m) && IsStructure(m.typeCode) && get(m.typeCode).Some? {
      var nested := get(m.typeCode).value;
      var inner := Chains(get, nested, 0, depth - 1);
      ExpansionLists(get, base + "." + m.name, nested, 0, depth - 1);
      forall k | 0 <= k < |inner|
        ensures IsChain(get, members, [i] + inner[k], depth)
        ensures Expand(get, base + "." + m.name, nested, 0, depth - 1)[k] ==
                Below(base, Relative(get, members, [i] + inner[k], depth))
      {
        ChainUnderMember(get, base, members, i, depth, inner[k]);
      }
    } else if Visible(m) && !IsStructure(m.typeCode) {
      AtomicListed(get, base, members, i, depth);
    }
  }

  lemma {:induction false} AtomicListed(get: Graph, base: string, members: seq<Member>, i: nat, depth: nat)
    requires depth > 0 && i < |members| && Visible(members[i]) && !IsStructure(members[i].typeCode)
    ensures IsChain(get, members, [i], depth)
    ensures Below(base, Relative(get, members, [i], depth)) == Listed(base + "." + members[i].name, members[i].typeCode)
  {
  }

  /** The expansion lists its chains one for one. */
  lemma {:induction false} ExpansionLists(get: Graph, base: string, members: seq<Member>, from: nat, depth: nat)
    ensures Lists(get, base, members, depth, from, Expand(get, base, members, from, depth),
                  Chains(get, members, from, depth))
    decreases depth, 1 + |members| - from
  {
    hide Below, Relative, IsChain, ExpandMember, ChainsOfMember;
    if depth > 0 && from < |members| {
      MemberLists(get, base, members, from, depth);
      ExpansionLists(get, base, members, from + 1, depth);
    }
  }

  /** Every chain of the graph within the depth is listed. */
  lemma {:induction false} EveryChainListed(get: Graph, members: seq<Member>, from: nat, depth: nat, chain: seq<nat>)
    requires IsChain(get, members, chain, depth) && from <= chain[0]
    ensures chain in Chains(get, members, from, depth)
    decreases depth, 1 + |members| - from
  {
    if chain[0] == from {
      var m := members[from];
      if |chain| == 1 {
        assert chain == [from];
      } else {
        var nested := get(m.typeCode).value;
        EveryChainListed(get, nested, 0, depth - 1, chain[1..]);
        var inner := Chains(get, nested, 0, depth - 1);
        var k :| 0 <= k < |inner| && inner[k] == chain[1..];
        assert Prefixed(from, inner)[k] == [from] + chain[1..] == chain;
      }
      assert chain in ChainsOfMember(get, members, from, depth);
    } else {
      EveryChainListed(get, members, from + 1, depth, chain);
    }
  }

  ghost predicate InOrder(chains: seq<seq<nat>>) {
    forall j, k | 0 <= j < k < |chains| :: Precedes(chains[j], chains[k])
  }

  lemma {:induction false} PrefixedInOrder(i: nat, chains: seq<seq<nat>>)
    requires InOrder(chains)
    ensures InOrder(Prefixed(i, chains))
  {
    var r := Prefixed(i, chains);
    forall j, k | 0 <= j < k < |r|
      ensures Precedes(r[j], r[k])
    {
      assert r[j][1..] == chains[j] && r[k][1..] == chains[k];
    }
  }

  /** The chains are listed in depth-first order, so none twice. */
  lemma {:induction false} ChainsInOrder(get: Graph, members: seq<Member>, from: nat, depth: nat)
    ensures InOrder(Chains(get, members, from, depth))
    decreases depth, 1 + |members| - from
  {
    if depth > 0 && from < |members| {
      var m := members[from];
      if Visible(m) && IsStructure(m.typeCode) && get(m.typeCode).Some? {
        ChainsInOrder(get, get(m.typeCode).value, 0, depth - 1);
        PrefixedInOrder(from, Chains(get, get(m.typeCode).value, 0, depth - 1));
      }
      ChainsInOrder(get, members, from + 1, depth);
      MemberLists(get, "", members, from, depth);
      ExpansionLists(get, "", members, from + 1, depth);
      JoinInOrder(ChainsOfMember(get, members, from, depth), Chains(get, members, from + 1, depth), from);
    }
  }

  lemma {:induction false} JoinInOrder(xs: seq<seq<nat>>, ys: seq<seq<nat>>, i: nat)
    requires InOrder(xs) && InOrder(ys)
    requires forall k | 0 <= k < |xs| :: xs[k] != [] && xs[k][0] == i
    requires forall k | 0 <= k < |ys| :: ys[k] != [] && ys[k][0] > i
    ensures InOrder(xs + ys)
  {
  }

  /**
    On any template graph, cyclic or not, the expansion of a structure lists
    exactly its chains of at most `depth` visible members down to an atomic one,
    in depth-first order.
   */
  lemma {:induction false} ExpansionIsExact(get: Graph, base: string, members: seq<Member>, depth: nat)
    ensures var listed, chains := Expand(get, base, members, 0, depth), Chains(get, members, 0, depth);
            && |listed| == |chains| && InOrder(chains)
            && (forall k | 0 <= k < |chains| ::
                  IsChain(get, members, chains[k], depth)
                  && listed[k] == Below(base, Relative(get, members, chains[k], depth)))
            && (forall chain :: chain in chains <==> IsChain(get, members, chain, depth))
  {
    hide Below, Relative, Expand;
    ExpansionLists(get, base, members, 0, depth);
    ChainsInOrder(get, members, 0, depth);
    forall chain
      ensures chain in Chains(get, members, 0, depth) <==> IsChain(get, members, chain, depth)
    {
      if IsChain(get, members, chain, depth) {
        EveryChainListed(get, members, 0, depth, chain);
      }
    }
  }

  // ---------------------------------------------------------------- lookup

  /** Position of the first `c`, or the length. */
  function IndexOf(s: string, c: char): (i: nat)
    ensures i <= |s| && (i < |s| ==> s[i] == c) && forall k | 0 <= k < i :: s[k] != c
  {
    if s == "" || s[0] == c then 0 else
      assert forall k | 1 <= k < |s| :: s[k] == s[1..][k - 1];
      1 + IndexOf(s[1..], c)
  }

  /** The member the map holds under a name: the last visible one. */
  function MemberNamed(members: seq<Member>, name: string): Option<nat> {
    if members == [] then None else
      var last := members[|members| - 1];
      if Visible(last) && last.name == name then Some(|members| - 1) else MemberNamed(members[..|members| - 1], name)
  }

  method BuildMemberMap(members: seq<Member>) returns (memberMap: map<string, nat>)
    ensures forall name :: name in memberMap <==> MemberNamed(members, name).Some?
    ensures forall name | name in memberMap :: memberMap[name] == MemberNamed(members, name).value
  {
    memberMap := map[];
    for i := 0 to |members|
      invariant forall name :: name in memberMap <==> MemberNamed(members[..i], name).Some?
      invariant forall name | name in memberMap :: memberMap[name] == MemberNamed(members[..i], name).value
    {
      assert members[..i + 1][..i] == members[..i];
      if Visible(members[i]) {
        memberMap := memberMap[members[i].name := i];
      }
    }
    assert members[..|members|] == members;
  }

  /** The name a lookup takes from the front of a path, and what it leaves. */
  function FirstName(path: string): string {
    var first := path[..IndexOf(path, '.')];
    first[..IndexOf(first, '[')]
  }

  function RestOf(path: string): string {
    var dot := IndexOf(path, '.');
    if dot == |path| then "" else path[dot + 1..]
  }

  /** Type of the member a path leads to; 0 if it leads nowhere. */
  function FindMemberType(get: Graph, members: seq<Member>, path: string): U16
    decreases |path|
  {
    var rest := RestOf(path);
    var found := MemberNamed(members, FirstName(path));
    if found.None? || found.value >= |members| then 0 else
      var m := members[found.value];
      if rest == "" then m.typeCode
      else if !IsStructure(m.typeCode) then 0
      else
        match get(m.typeCode)
        case None => 0
        case Some(nested) => FindMemberType(get, nested, rest)
  }

  /** A visible member is found under its name exactly when no later visible member has that name. */
  lemma {:induction false} FoundByName(members: seq<Member>, i: nat)
    requires i < |members| && Visible(members[i])
    ensures MemberNamed(members, members[i].name) == Some(i) <==>
            forall k | i < k < |members| :: !(Visible(members[k]) && members[k].name == members[i].name)
  {
    var last := |members| - 1;
    if i < last {
      FoundByName(members[..last], i);
      assert forall k | 0 <= k < last :: members[..last][k] == members[k];
      FoundBelow(members[..last], members[i].name);
    }
  }

  lemma {:induction false} FoundBelow(members: seq<Member>, name: string)
    ensures MemberNamed(members, name).Some? ==> MemberNamed(members, name).value < |members|
  {
    if members != [] {
      FoundBelow(members[..|members| - 1], name);
    }
  }

  /** The members a lookup passes through, down to the one it ends at. */
  function Followed(get: Graph, members: seq<Member>, path: string): Option<seq<nat>>
    decreases |path|
  {
    var rest := RestOf(path);
    var found := MemberNamed(members, FirstName(path));
    if found.None? || found.value >= |members| then None
    else if rest == "" then Some([found.value])
    else if !IsStructure(members[found.value].typeCode) || get(members[found.value].typeCode).None? then None
    else
      var further := Followed(get, get(members[found.value].typeCode).value, rest);
      if further.None? then None else Some([found.value] + further.value)
  }

  /** Type of the member at the end of such a list. */
  function EndType(get: Graph, members: seq<Member>, chain: seq<nat>): U16
    decreases |chain|
  {
    if chain == [] || chain[0] >= |members| then 0
    else if |chain| == 1 then members[chain[0]].typeCode
    else if get(members[chain[0]].typeCode).None? then 0
    else EndType(get, get(members[chain[0]].typeCode).value, chain[1..])
  }

  lemma {:induction false} LookupFollows(get: Graph, members: seq<Member>, path: string)
    ensures var end := Followed(get, members, path);
            end.Some? ==> end.value != []
    ensures var end := Followed(get, members, path);
            FindMemberType(get, members, path) == if end.None? then 0 else EndType(get, members, end.value)
    decreases |path|
  {
    var rest := RestOf(path);
    var found := MemberNamed(members, FirstName(path));
    if found.Some? && found.value < |members| && rest != "" && IsStructure(members[found.value].typeCode)
       && get(members[found.value].typeCode).Some? {
      var nested := get(members[found.value].typeCode).value;
      LookupFollows(get, nested, rest);
      var further := Followed(get, nested, rest);
      if further.Some? {
        assert ([found.value] + further.value)[1..] == further.value;
      }
    }
  }

  /** A name free of the path separators that no later visible member has. */
  predicate Plain(members: seq<Member>, i: nat)
    requires i < |members|
  {
    && '.' !in members[i].name && '[' !in members[i].name
    && forall k | i < k < |members| :: !(Visible(members[k]) && members[k].name == members[i].name)
  }

  /** Every member on the chain has such a name. */
  predicate Findable(get: Graph, members: seq<Member>, chain: seq<nat>, depth: nat)
    requires IsChain(get, members, chain, depth)
    decreases depth
  {
    && Plain(members, chain[0])
    && (|chain| > 1 ==> Findable(get, get(members[chain[0]].typeCode).value, chain[1..], depth - 1))
  }

  lemma {:induction false} NotFound(s: string, c: char)
    requires c !in s
    ensures IndexOf(s, c) == |s|
  {
    if s != "" {
      NotFound(s[1..], c);
    }
  }

  lemma {:induction false} FirstDot(name: string, rest: string)
    requires '.' !in name
    ensures IndexOf(name + "." + rest, '.') == |name|
  {
    var path := name + "." + rest;
    assert path[|name|] == '.';
    forall k | 0 <= k < |name|
      ensures path[k] != '.'
    {
      assert path[k] == name[k] && name[k] in name;
    }
  }

  lemma {:induction false} NamedHasName(members: seq<Member>, name: string)
    ensures var found := MemberNamed(members, name);
            found.Some? ==> found.value < |members| && members[found.value].name == name
  {
    if members != [] {
      NamedHasName(members[..|members| - 1], name);
    }
  }

  /** The first name read is the whole of a member's name exactly when that is free of separators. */
  lemma {:induction false} FirstNameOf(name: string, rest: string)
    requires name != "" && rest != ""
    ensures FirstName(name) == name <==> '.' !in name && '[' !in name
    ensures FirstName(name + "." + rest) == name <==> '.' !in name && '[' !in name
    ensures '.' !in name ==> RestOf(name) == "" && RestOf(name + "." + rest) == rest
  {
    hide IndexOf;
    var path := name + "." + rest;
    if '.' !in name {
      NotFound(name, '.');
      FirstDot(name, rest);
      assert name[..|name|] == name && path[..|name|] == name && path[|name| + 1..] == rest;
      BracketFree(name);
    } else {
      DotInside(name, rest);
    }
  }

  lemma {:induction false} BracketFree(name: string)
    ensures name[..IndexOf(name, '[')] == name <==> '[' !in name
  {
    if '[' !in name {
      NotFound(name, '[');
    } else {
      var k :| 0 <= k < |name| && name[k] == '[';
      assert IndexOf(name, '[') <= k;
    }
  }

  lemma {:induction false} DotInside(name: string, rest: string)
    requires '.' in name
    ensures IndexOf(name, '.') < |name| && IndexOf(name + "." + rest, '.') < |name|
  {
    var path := name + "." + rest;
    var k :| 0 <= k < |name| && name[k] == '.';
    assert path[k] == '.';
  }

  /** Looking up a chain's dotted path passes through that chain exactly when its names are plain. */
  lemma {:induction false} ChainIsFound(get: Graph, members: seq<Member>, chain: seq<nat>, depth: nat)
    requires IsChain(get, members, chain, depth)
    ensures var listed := Relative(get, members, chain, depth);
            && listed.path != "" && EndType(get, members, chain) == listed.typeCode
            && (Followed(get, members, listed.path) == Some(chain) <==> Findable(get, members, chain, depth))
    decreases depth
  {
    hide IsStructure, IndexOf, MemberNamed;
    var m := members[chain[0]];
    var path := Relative(get, members, chain, depth).path;
    var found := MemberNamed(members, FirstName(path));
    NamedHasName(members, FirstName(path));
    FoundByName(members, chain[0]);
    if |chain| == 1 {
      FirstNameOf(m.name, "x");
      assert chain == [chain[0]];
    } else {
      var nested := get(m.typeCode).value;
      ChainIsFound(get, nested, chain[1..], depth - 1);
      FirstNameOf(m.name, Relative(get, nested, chain[1..], depth - 1).path);
      assert chain == [chain[0]] + chain[1..];
      FollowedFirst(get, members, path);
    }
  }

  lemma {:induction false} FollowedFirst(get: Graph, members: seq<Member>, path: string)
    ensures var found := MemberNamed(members, FirstName(path));
            var end := Followed(get, members, path);
            && (end.Some? ==> found.Some? && found.value < |members| && end.value != [] && end.value[0] == found.value)
            && (found.Some? && found.value < |members| && RestOf(path) != ""
                && IsStructure(members[found.value].typeCode) && get(members[found.value].typeCode).Some? ==>
                  var further := Followed(get, get(members[found.value].typeCode).value, RestOf(path));
                  end == if further.None? then None else Some([found.value] + further.value))
  {
  }

  /**
    Each listed path, without its base, looks up to the very member it was
    listed for if and only if every name on its way is plain, and so to the type
    it was listed with. What other members and templates are called is no matter.
   */
  lemma {:induction false} ListedPathsAreFound(get: Graph, base: string, members: seq<Member>, depth: nat, k: nat)
    requires k < |Expand(get, base, members, 0, depth)|
    ensures k < |Chains(get, members, 0, depth)| && IsChain(get, members, Chains(get, members, 0, depth)[k], depth)
    ensures var listed, chain := Expand(get, base, members, 0, depth)[k], Chains(get, members, 0, depth)[k];
            && |base| + 1 < |listed.path| && listed.path[..|base| + 1] == base + "."
            && (Followed(get, members, listed.path[|base| + 1..]) == Some(chain) <==> Findable(get, members, chain, depth))
            && (Findable(get, members, chain, depth) ==>
                  FindMemberType(get, members, listed.path[|base| + 1..]) == listed.typeCode)
  {
    hide Expand, FindMemberType, Followed, EndType, Relative, Findable, IsChain, Chains;
    ExpansionLists(get, base, members, 0, depth);
    var chain := Chains(get, members, 0, depth)[k];
    ChainIsFound(get, members, chain, depth);
    var relative := Relative(get, members, chain, depth);
    var path := base + "." + relative.path;
    assert path[..|base| + 1] == base + "." && path[|base| + 1..] == relative.path;
    LookupFollows(get, members, relative.path);
  }
}
