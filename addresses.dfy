/** The address recognisers of the alias manager (`ipv4?` and `ipv6?`).

    Both work on text with regular expressions anchored by `\A` and `\Z`;
    `\Z` also matches before one final newline, so a recogniser that ends
    in `\Z` judges the text without that newline. A hexadecimal group
    `[\dA-Fa-f]{1,4}` never contains a colon, so the regular expressions
    are stated here on the pieces of the text between colons (`Split`): a
    group is always a whole piece. */
module Addresses {
  import opened Text

  /** The text `\Z` lets the match end at: without one final newline. */
  function StripFinalNewline(s: string): (line: string)
    ensures line == s || line + "\n" == s
    ensures '\n' !in s ==> line == s
    ensures |s| > 0 && s[|s| - 1] == '\n' ==> line == s[..|s| - 1]
  {
    if |s| > 0 && s[|s| - 1] == '\n' then s[..|s| - 1] else s
  }

  // ---------------------------------------------------------------------
  // IPv4

  /** One capture of `(\d{1,3})` whose value (`to_i`) is below 256. */
  predicate Octet(p: string)
  {
    1 <= |p| <= 3 && AllDigits(p) && DecimalValue(p) < 256
  }

  /** `ipv4?` (lib/devdnsd/aliases.rb:68-73): four runs of one to three
      decimal digits separated by dots, each worth less than 256. */
  predicate IsIPv4(s: string)
  {
    var parts := Split(StripFinalNewline(s), '.');
    |parts| == 4 && Octet(parts[0]) && Octet(parts[1]) && Octet(parts[2]) && Octet(parts[3])
  }

  /** The values of the four captures of a valid IPv4 address. */
  function Octets(s: string): (r: seq<nat>)
    requires IsIPv4(s)
    ensures |r| == 4 && forall i :: 0 <= i < 4 ==> r[i] < 256
  {
    var parts := Split(StripFinalNewline(s), '.');
    [DecimalValue(parts[0]), DecimalValue(parts[1]), DecimalValue(parts[2]), DecimalValue(parts[3])]
  }

  /** The dotted-quad text of four numbers. */
  function FormatIPv4(a: nat, b: nat, c: nat, d: nat): string
  {
    Join([ShowNat(a), ShowNat(b), ShowNat(c), ShowNat(d)], '.')
  }

  lemma DigitsHaveNo(s: string, c: char)
    requires AllDigits(s) && !IsDigit(c)
    ensures c !in s
  {
  }

  lemma {:induction false} FormatIPv4Parts(a: nat, b: nat, c: nat, d: nat)
    ensures Split(FormatIPv4(a, b, c, d), '.') == [ShowNat(a), ShowNat(b), ShowNat(c), ShowNat(d)]
    ensures '\n' !in FormatIPv4(a, b, c, d)
  {
    var parts := [ShowNat(a), ShowNat(b), ShowNat(c), ShowNat(d)];
    forall i | 0 <= i < 4 ensures '.' !in parts[i] && '\n' !in parts[i] {
      DigitsHaveNo(parts[i], '.');
      DigitsHaveNo(parts[i], '\n');
    }
    SplitJoin(parts, '.');
    JoinChars(parts, '.');
  }

  lemma OctetOfShow(n: nat)
    ensures Octet(ShowNat(n)) <==> n < 256
  {
  }

  /** The dotted quad of four numbers, with or without a final newline, is a
      valid IPv4 address exactly when every number is below 256, and its
      captures read back as the four numbers. */
  lemma {:induction false} FormatIPv4Accepted(a: nat, b: nat, c: nat, d: nat, newline: bool)
    ensures var s := FormatIPv4(a, b, c, d) + (if newline then "\n" else "");
      IsIPv4(s) <==> a < 256 && b < 256 && c < 256 && d < 256
    ensures a < 256 && b < 256 && c < 256 && d < 256 ==>
      IsIPv4(FormatIPv4(a, b, c, d)) && Octets(FormatIPv4(a, b, c, d)) == [a, b, c, d]
  {
    var f := FormatIPv4(a, b, c, d);
    var s := f + (if newline then "\n" else "");
    FormatIPv4Parts(a, b, c, d);
    assert StripFinalNewline(s) == f by {
      if newline {
        assert s[..|s| - 1] == f;
      }
    }
    OctetOfShow(a);
    OctetOfShow(b);
    OctetOfShow(c);
    OctetOfShow(d);
  }

  /** A valid IPv4 address has a dot and no colon. */
  lemma {:induction false} IPv4Characters(s: string)
    requires IsIPv4(s)
    ensures ':' !in s && '.' in StripFinalNewline(s)
  {
    var line := StripFinalNewline(s);
    var parts := Split(line, '.');
    JoinSplit(line, '.');
    JoinHasSeparator(parts, '.');
    JoinChars(parts, '.');
    forall i | 0 <= i < 4 ensures ':' !in parts[i] {
      DigitsHaveNo(parts[i], ':');
    }
    assert ':' !in line;
    assert line <= s;
  }

  // ---------------------------------------------------------------------
  // IPv6

  /** `[\dA-Fa-f]{1,4}` matching a whole piece. */
  predicate HexGroup(g: string)
  {
    1 <= |g| <= 4 && forall i :: 0 <= i < |g| ==> IsHexDigit(g[i])
  }

  predicate AllGroups(ps: seq<string>)
  {
    forall i :: 0 <= i < |ps| ==> HexGroup(ps[i])
  }

  /** How many pieces at the start are groups: the longest run
      `[\dA-Fa-f]{1,4}(:[\dA-Fa-f]{1,4})*` can take. */
  function LeadingGroups(ps: seq<string>): (n: nat)
    ensures n <= |ps| && AllGroups(ps[..n])
    ensures n < |ps| ==> !HexGroup(ps[n])
  {
    if ps == [] || !HexGroup(ps[0]) then 0
    else
      var n := 1 + LeadingGroups(ps[1..]);
      assert ps[..n] == [ps[0]] + ps[1..][..n - 1];
      n
  }

  /** The number of pieces the greedy prefix
      `[\dA-Fa-f]{1,4}(:[\dA-Fa-f]{1,4})*:` consumes, that is the
      groups it takes before its last colon; 0 when it does not match. */
  function GroupsBeforeColon(ps: seq<string>): (k: nat)
    ensures k <= LeadingGroups(ps)
    ensures k == 0 || k < |ps|
    ensures 0 < LeadingGroups(ps) && 1 < |ps| ==> k >= 1
    ensures LeadingGroups(ps) < |ps| ==> k == LeadingGroups(ps)
    ensures 0 < LeadingGroups(ps) == |ps| ==> k == |ps| - 1
  {
    var m := LeadingGroups(ps);
    if m < |ps| then m else if m == 0 then 0 else m - 1
  }

  /** What may follow `::` in a normal address before `\Z`: nothing, or
      groups. */
  predicate GroupTail(rest: seq<string>)
  {
    rest == [""] || (rest != [] && AllGroups(rest))
  }

  /** `ipv4?($')` after the optional `([\dA-Fa-f]{1,4}(:[\dA-Fa-f]{1,4})*:)?`
      that follows `::` in a compatible address. */
  predicate IPv4After(rest: seq<string>)
  {
    IsIPv4(Join(rest[GroupsBeforeColon(rest)..], ':'))
  }

  /** `check_normal_ipv6` (lib/devdnsd/aliases.rb:165-169): groups;
      groups, `::`, optional groups; or `::`, optional groups. */
  predicate NormalIPv6(s: string)
  {
    NormalParts(Split(StripFinalNewline(s), ':'))
  }

  predicate NormalParts(ps: seq<string>)
  {
    AllGroups(ps)
    || (var m := LeadingGroups(ps); 1 <= m && m + 1 < |ps| && ps[m] == "" && GroupTail(ps[m + 1..]))
    || (|ps| >= 3 && ps[0] == "" && ps[1] == "" && GroupTail(ps[2..]))
  }

  /** `check_compat_ipv6` (lib/devdnsd/aliases.rb:158-162): the greedy
      prefix of each of the three patterns, then `ipv4?` of the text after
      the match (`$'`, newline included). */
  predicate CompatIPv6(s: string)
  {
    CompatParts(Split(s, ':'))
  }

  predicate CompatParts(ps: seq<string>)
  {
    (var k := GroupsBeforeColon(ps); k >= 1 && IsIPv4(Join(ps[k..], ':')))
    || (var m := LeadingGroups(ps); 1 <= m && m + 1 < |ps| && ps[m] == "" && IPv4After(ps[m + 1..]))
    || (|ps| >= 3 && ps[0] == "" && ps[1] == "" && IPv4After(ps[2..]))
  }

  /** `ipv6?` (lib/devdnsd/aliases.rb:80-91). */
  predicate IsIPv6(s: string)
  {
    NormalIPv6(s) || CompatIPv6(s)
  }

  /** The textual forms of IPv6 addresses (section 2.2 of RFC 4291) as the
      recogniser admits them: any number of groups, at most one `::`, and
      optionally a trailing IPv4 address; the normal forms may end in a
      newline (the IPv4 address carries its own). */
  datatype IPv6Text =
    | Full(groups: seq<string>, newline: bool)
    | Compressed(before: seq<string>, after: seq<string>, newline: bool)
    | Embedded(groups: seq<string>, v4: string)
    | CompressedEmbedded(before: seq<string>, after: seq<string>, v4: string)

  predicate WellFormed(t: IPv6Text)
  {
    match t
    case Full(groups, _) => groups != [] && AllGroups(groups)
    case Compressed(before, after, _) => AllGroups(before) && AllGroups(after)
    case Embedded(groups, v4) => groups != [] && AllGroups(groups) && IsIPv4(v4)
    case CompressedEmbedded(before, after, v4) => AllGroups(before) && AllGroups(after) && IsIPv4(v4)
  }

  function Render(t: IPv6Text): string
  {
    match t
    case Full(groups, newline) => Join(groups, ':') + (if newline then "\n" else "")
    case Compressed(before, after, newline) =>
      Join(before, ':') + "::" + Join(after, ':') + (if newline then "\n" else "")
    case Embedded(groups, v4) => Join(groups, ':') + ":" + v4
    case CompressedEmbedded(before, after, v4) => Join(before, ':') + "::" + Join(after + [v4], ':')
  }

  /** The pieces of `before::rest`. */
  function CompressedParts(before: seq<string>, rest: seq<string>): seq<string>
  {
    (if before == [] then [""] else before) + [""] + rest
  }

  /** The pieces around the empty piece at `m` (for `m` = 0, the two
      empty pieces of a leading `::`). */
  lemma AroundDoubleColon(ps: seq<string>, m: nat)
    requires m + 1 < |ps| && ps[m] == ""
    requires m == 0 ==> ps[1] == ""
    ensures m == 0 ==> ps == CompressedParts([], ps[2..])
    ensures m > 0 ==> ps == CompressedParts(ps[..m], ps[m + 1..])
  {
    if m == 0 {
      assert ps == [""] + [""] + ps[2..];
    } else {
      assert ps == ps[..m] + [""] + ps[m + 1..];
    }
  }

  /** Where the `::` of `before::rest` is among its pieces. */
  lemma CompressedShape(before: seq<string>, rest: seq<string>)
    requires AllGroups(before)
    ensures var ps := CompressedParts(before, rest);
      before != [] ==>
        LeadingGroups(ps) == |before| && ps[|before|] == "" && ps[|before| + 1..] == rest
    ensures var ps := CompressedParts(before, rest);
      before == [] ==> |ps| >= 2 && ps[0] == "" && ps[1] == "" && ps[2..] == rest
  {
    var ps := CompressedParts(before, rest);
    if before != [] {
      assert ps[..|before|] == before;
      LeadingGroupsOf(ps, |before|);
      assert ps[|before| + 1..] == rest;
    } else {
      assert ps[2..] == rest;
    }
  }

  lemma CompressedJoin(before: seq<string>, rest: seq<string>)
    requires rest != []
    ensures Join(CompressedParts(before, rest), ':') == Join(before, ':') + "::" + Join(rest, ':')
  {
    var head := if before == [] then [""] else before;
    assert CompressedParts(before, rest) == head + ([""] + rest);
    JoinAppend(head, [""] + rest, ':');
    JoinAppend([""], rest, ':');
  }

  lemma GroupsHaveNo(ps: seq<string>, c: char)
    requires AllGroups(ps) && !IsHexDigit(c)
    ensures forall i :: 0 <= i < |ps| ==> c !in ps[i]
  {
  }

  /** Splitting the text of pieces that have no colon and no newline. */
  lemma {:induction false} PiecesBack(ps: seq<string>, newline: bool)
    requires ps != []
    requires forall i :: 0 <= i < |ps| ==> ':' !in ps[i] && '\n' !in ps[i]
    ensures var s := Join(ps, ':') + (if newline then "\n" else "");
      Split(StripFinalNewline(s), ':') == ps
  {
    var j := Join(ps, ':');
    var s := j + (if newline then "\n" else "");
    JoinChars(ps, ':');
    assert '\n' !in j;
    assert StripFinalNewline(s) == j by {
      if newline {
        assert s[..|s| - 1] == j;
      }
    }
    SplitJoin(ps, ':');
  }

  /** A group prefix followed by a piece that is not a group. */
  lemma {:induction false} LeadingGroupsOf(ps: seq<string>, n: nat)
    requires n < |ps| && AllGroups(ps[..n]) && !HexGroup(ps[n])
    ensures LeadingGroups(ps) == n
  {
    if n > 0 {
      assert HexGroup(ps[0]) by {
        assert ps[..n][0] == ps[0];
      }
      assert ps[1..][..n - 1] == ps[..n][1..];
      LeadingGroupsOf(ps[1..], n - 1);
    }
  }

  lemma NotGroup(v4: string)
    requires IsIPv4(v4)
    ensures !HexGroup(v4)
  {
    IPv4Characters(v4);
    var i :| 0 <= i < |StripFinalNewline(v4)| && StripFinalNewline(v4)[i] == '.';
    assert v4[i] == '.';
  }

  lemma EmbeddedTail(groups: seq<string>, v4: string)
    requires AllGroups(groups) && IsIPv4(v4)
    ensures IPv4After(groups + [v4])
  {
    var r := groups + [v4];
    NotGroup(v4);
    assert r[..|groups|] == groups;
    LeadingGroupsOf(r, |groups|);
    assert r[|groups|..] == [v4];
  }

  /** Every well-formed text form is accepted by `ipv6?`. */
  lemma RenderAccepted(t: IPv6Text)
    requires WellFormed(t)
    ensures IsIPv6(Render(t))
  {
    match t
    case Full(groups, newline) =>
      FullAccepted(groups, newline);
    case Compressed(before, after, newline) =>
      CompressedAccepted(before, after, newline);
    case Embedded(groups, v4) =>
      EmbeddedAccepted(groups, v4);
    case CompressedEmbedded(before, after, v4) =>
      CompressedEmbeddedAccepted(before, after, v4);
  }

  lemma FullAccepted(groups: seq<string>, newline: bool)
    requires groups != [] && AllGroups(groups)
    ensures NormalIPv6(Render(Full(groups, newline)))
  {
    GroupsHaveNo(groups, ':');
    GroupsHaveNo(groups, '\n');
    PiecesBack(groups, newline);
  }

  lemma {:induction false} CompressedAccepted(before: seq<string>, after: seq<string>, newline: bool)
    requires AllGroups(before) && AllGroups(after)
    ensures NormalIPv6(Render(Compressed(before, after, newline)))
  {
    var rest := if after == [] then [""] else after;
    var ps := CompressedParts(before, rest);
    CompressedJoin(before, rest);
    assert Join(rest, ':') == Join(after, ':');
    CompressedPiecesClean(before, after);
    PiecesBack(ps, newline);
    CompressedNormal(before, rest);
  }

  lemma CompressedPiecesClean(before: seq<string>, after: seq<string>)
    requires AllGroups(before) && AllGroups(after)
    ensures var ps := CompressedParts(before, if after == [] then [""] else after);
      forall i :: 0 <= i < |ps| ==> ':' !in ps[i] && '\n' !in ps[i]
  {
    GroupsHaveNo(before, ':');
    GroupsHaveNo(before, '\n');
    GroupsHaveNo(after, ':');
    GroupsHaveNo(after, '\n');
  }

  lemma CompressedNormal(before: seq<string>, rest: seq<string>)
    requires AllGroups(before) && GroupTail(rest)
    ensures NormalParts(CompressedParts(before, rest))
  {
    CompressedShape(before, rest);
  }

  lemma {:induction false} EmbeddedAccepted(groups: seq<string>, v4: string)
    requires groups != [] && AllGroups(groups) && IsIPv4(v4)
    ensures CompatIPv6(Render(Embedded(groups, v4)))
  {
    var ps := groups + [v4];
    JoinAppend(groups, [v4], ':');
    IPv4Characters(v4);
    GroupsHaveNo(groups, ':');
    SplitJoin(ps, ':');
    EmbeddedTail(groups, v4);
    assert ps[GroupsBeforeColon(ps)..] == [v4];
  }

  lemma {:induction false} CompressedEmbeddedAccepted(before: seq<string>, after: seq<string>, v4: string)
    requires AllGroups(before) && AllGroups(after) && IsIPv4(v4)
    ensures CompatIPv6(Render(CompressedEmbedded(before, after, v4)))
  {
    var rest := after + [v4];
    var ps := CompressedParts(before, rest);
    CompressedJoin(before, rest);
    IPv4Characters(v4);
    GroupsHaveNo(before, ':');
    GroupsHaveNo(after, ':');
    SplitJoin(ps, ':');
    EmbeddedTail(after, v4);
    CompressedShape(before, rest);
  }

  /** The pieces after a matched prefix that `ipv4?` accepts are one piece. */
  lemma SinglePiece(rest: seq<string>)
    requires rest != [] && IsIPv4(Join(rest, ':'))
    ensures rest == [Join(rest, ':')]
  {
    IPv4Characters(Join(rest, ':'));
    if |rest| >= 2 {
      JoinHasSeparator(rest, ':');
    }
  }

  /** Only well-formed text forms are accepted by `ipv6?`: with
      RenderAccepted, the recogniser accepts exactly the rendered forms. */
  lemma AcceptedRendered(s: string)
    requires IsIPv6(s)
    ensures exists t :: WellFormed(t) && Render(t) == s
  {
    if NormalIPv6(s) {
      var t := NormalForm(s);
    } else {
      var t := CompatForm(s);
    }
  }

  lemma {:induction false} NormalForm(s: string) returns (t: IPv6Text)
    requires NormalIPv6(s)
    ensures WellFormed(t) && Render(t) == s
  {
    var line := StripFinalNewline(s);
    var newline := line != s;
    var ps := Split(line, ':');
    JoinSplit(line, ':');
    assert s == line + (if newline then "\n" else "");
    if AllGroups(ps) {
      t := Full(ps, newline);
    } else {
      var before, rest := CompressedSplit(ps);
      CompressedJoin(before, rest);
      var after := if rest == [""] then [] else rest;
      assert Join(after, ':') == Join(rest, ':');
      t := Compressed(before, after, newline);
    }
  }

  /** The pieces of a normal address that is not all groups, around its
      `::`. */
  lemma CompressedSplit(ps: seq<string>) returns (before: seq<string>, rest: seq<string>)
    requires NormalParts(ps) && !AllGroups(ps)
    ensures ps == CompressedParts(before, rest) && rest != []
    ensures AllGroups(before) && GroupTail(rest)
  {
    var m := LeadingGroups(ps);
    if 1 <= m && m + 1 < |ps| && ps[m] == "" && GroupTail(ps[m + 1..]) {
      before, rest := ps[..m], ps[m + 1..];
      AroundDoubleColon(ps, m);
    } else {
      before, rest := [], ps[2..];
      AroundDoubleColon(ps, 0);
    }
  }

  lemma GroupsPrefix(ps: seq<string>, k: nat)
    requires k <= LeadingGroups(ps)
    ensures AllGroups(ps[..k])
  {
    var m := LeadingGroups(ps);
    forall i | 0 <= i < k ensures HexGroup(ps[..k][i]) {
      assert ps[..k][i] == ps[..m][i];
    }
  }

  /** The pieces after `::` in a compatible address: groups, then the
      IPv4 address. */
  lemma EmbeddedRest(rest: seq<string>) returns (after: seq<string>, v4: string)
    requires IPv4After(rest)
    ensures AllGroups(after) && IsIPv4(v4) && rest == after + [v4]
  {
    var k := GroupsBeforeColon(rest);
    GroupsPrefix(rest, k);
    SinglePiece(rest[k..]);
    after, v4 := rest[..k], Join(rest[k..], ':');
    assert rest == rest[..k] + rest[k..];
  }

  lemma EmbeddedSplit(ps: seq<string>) returns (groups: seq<string>, v4: string)
    requires GroupsBeforeColon(ps) >= 1 && IsIPv4(Join(ps[GroupsBeforeColon(ps)..], ':'))
    ensures groups != [] && AllGroups(groups) && IsIPv4(v4) && ps == groups + [v4]
  {
    var k := GroupsBeforeColon(ps);
    GroupsPrefix(ps, k);
    SinglePiece(ps[k..]);
    groups, v4 := ps[..k], Join(ps[k..], ':');
    assert ps == ps[..k] + ps[k..];
  }

  lemma CompressedEmbeddedSplit(ps: seq<string>) returns (before: seq<string>, after: seq<string>, v4: string)
    requires var m := LeadingGroups(ps);
      (1 <= m && m + 1 < |ps| && ps[m] == "" && IPv4After(ps[m + 1..]))
      || (|ps| >= 3 && ps[0] == "" && ps[1] == "" && IPv4After(ps[2..]))
    ensures AllGroups(before) && AllGroups(after) && IsIPv4(v4)
    ensures ps == CompressedParts(before, after + [v4])
  {
    var m := LeadingGroups(ps);
    if 1 <= m && m + 1 < |ps| && ps[m] == "" && IPv4After(ps[m + 1..]) {
      before, after, v4 := InnerDoubleColon(ps, m);
    } else {
      before, after, v4 := LeadingDoubleColon(ps);
    }
  }

  lemma InnerDoubleColon(ps: seq<string>, m: nat) returns (before: seq<string>, after: seq<string>, v4: string)
    requires m == LeadingGroups(ps)
    requires 1 <= m && m + 1 < |ps| && ps[m] == "" && IPv4After(ps[m + 1..])
    ensures AllGroups(before) && AllGroups(after) && IsIPv4(v4)
    ensures ps == CompressedParts(before, after + [v4])
  {
    after, v4 := EmbeddedRest(ps[m + 1..]);
    before := ps[..m];
    AroundDoubleColon(ps, m);
  }

  lemma LeadingDoubleColon(ps: seq<string>) returns (before: seq<string>, after: seq<string>, v4: string)
    requires |ps| >= 3 && ps[0] == "" && ps[1] == "" && IPv4After(ps[2..])
    ensures AllGroups(before) && AllGroups(after) && IsIPv4(v4)
    ensures ps == CompressedParts(before, after + [v4])
  {
    after, v4 := EmbeddedRest(ps[2..]);
    before := [];
    AroundDoubleColon(ps, 0);
  }

  lemma {:induction false} CompatForm(s: string) returns (t: IPv6Text)
    requires CompatIPv6(s)
    ensures WellFormed(t) && Render(t) == s
  {
    var ps := Split(s, ':');
    JoinSplit(s, ':');
    var k := GroupsBeforeColon(ps);
    if k >= 1 && IsIPv4(Join(ps[k..], ':')) {
      var groups, v4 := EmbeddedSplit(ps);
      JoinAppend(groups, [v4], ':');
      t := Embedded(groups, v4);
    } else {
      var before, after, v4 := CompressedEmbeddedSplit(ps);
      CompressedJoin(before, after + [v4]);
      t := CompressedEmbedded(before, after, v4);
    }
  }

  /** The recogniser does not bound the number of groups: a single group
      passes as an IPv6 address. */
  lemma SingleGroupAccepted()
    ensures IsIPv6("abc")
  {
    assert Render(Full(["abc"], false)) == "abc";
    RenderAccepted(Full(["abc"], false));
  }

  /** No text is both: the IPv4 and IPv6 filters never select the same
      address. */
  lemma {:induction false} IPv4NotIPv6(s: string)
    requires IsIPv4(s)
    ensures !IsIPv6(s)
  {
    IPv4Characters(s);
    var line := StripFinalNewline(s);
    assert ':' !in line by {
      assert line <= s;
    }
    SplitWithout(line, ':');
    SplitWithout(s, ':');
    assert !HexGroup(line) && !HexGroup(s) by {
      var i :| 0 <= i < |line| && line[i] == '.';
      assert s[i] == '.';
    }
    LeadingGroupsOf([line], 0);
    LeadingGroupsOf([s], 0);
    assert !NormalParts([line]);
    assert !CompatParts([s]);
  }
}
