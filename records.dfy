/** The DNS resource record types the server knows, the symbolic tags used
    for them in configuration, and the fixed list of types the server
    handles (`ANY_CLASSES`, defined in the application class, which is not
    part of this model). */
module Records {
  import opened Base

  /** Record types of the Internet class (section 3.2.2 of RFC 1035 and
      section 2.1 of RFC 3596). ANY is QTYPE `*` (section 3.2.3 of RFC 1035).
      SRV and WKS are resource classes the DNS library defines but the server
      does not handle. */
  datatype RecordType = A | AAAA | ANY | CNAME | HINFO | MINFO | MX | NS | PTR | SOA | TXT | SRV | WKS

  /** The handled types, in the order the server tries them. */
  const AnyClasses: seq<RecordType> := [A, AAAA, ANY, CNAME, HINFO, MINFO, MX, NS, PTR, SOA, TXT]

  /** The requested type that stands for "every handled type". */
  const AnyRequest: RecordType := ANY

  /** `Rule.resource_class_to_symbol`: the class name without its module
      prefix. */
  function Symbol(t: RecordType): string
  {
    match t
    case A => "A"
    case AAAA => "AAAA"
    case ANY => "ANY"
    case CNAME => "CNAME"
    case HINFO => "HINFO"
    case MINFO => "MINFO"
    case MX => "MX"
    case NS => "NS"
    case PTR => "PTR"
    case SOA => "SOA"
    case TXT => "TXT"
    case SRV => "SRV"
    case WKS => "WKS"
  }

  /** `Rule.symbol_to_resource_class`: the class a tag names, or
      InvalidRule for a tag that names none. A tag converts exactly when it
      is the symbol of some class, and then it is that class's symbol, so
      the mapping is a bijection between the known tags and the classes. */
  function SymbolToResourceClass(tag: string): (r: Result<RecordType>)
    ensures r.Err? ==> r.error == InvalidRule
    ensures r.Ok? ==> Symbol(r.value) == tag
    ensures r.Ok? <==> exists t :: Symbol(t) == tag
  {
    if tag == "A" then Ok(A)
    else if tag == "AAAA" then Ok(AAAA)
    else if tag == "ANY" then Ok(ANY)
    else if tag == "CNAME" then Ok(CNAME)
    else if tag == "HINFO" then Ok(HINFO)
    else if tag == "MINFO" then Ok(MINFO)
    else if tag == "MX" then Ok(MX)
    else if tag == "NS" then Ok(NS)
    else if tag == "PTR" then Ok(PTR)
    else if tag == "SOA" then Ok(SOA)
    else if tag == "TXT" then Ok(TXT)
    else if tag == "SRV" then Ok(SRV)
    else if tag == "WKS" then Ok(WKS)
    else Err(InvalidRule)
  }

  /** The symbol of a class converts back to that class. */
  lemma SymbolRoundTrip(t: RecordType)
    ensures SymbolToResourceClass(Symbol(t)) == Ok(t)
  {
  }

  /** `xs & ys`: the elements of `xs` that are in `ys`, in the order of `xs`,
      each once. */
  function Intersect(xs: seq<RecordType>, ys: seq<RecordType>): seq<RecordType>
  {
    Dedup(Keep(xs, ys))
  }

  function Keep(xs: seq<RecordType>, ys: seq<RecordType>): (r: seq<RecordType>)
    ensures forall x :: x in r <==> x in xs && x in ys
  {
    if xs == [] then []
    else if xs[|xs| - 1] in ys then Keep(xs[..|xs| - 1], ys) + [xs[|xs| - 1]]
    else Keep(xs[..|xs| - 1], ys)
  }

  /** The types tried for a rule whose resolved classes are `ruleClasses`
      when the query asks for `requested` (lib/devdnsd/server.rb:58-59). */
  function TriedClasses(ruleClasses: seq<RecordType>, requested: RecordType): seq<RecordType>
  {
    var handled := Intersect(AnyClasses, ruleClasses);
    if requested != AnyRequest then Intersect(handled, [requested]) else handled
  }

  lemma KeepOfNoDuplicates(xs: seq<RecordType>, ys: seq<RecordType>)
    requires NoDuplicates(xs)
    ensures Dedup(Keep(xs, ys)) == Keep(xs, ys)
    ensures forall i, j :: 0 <= i < j < |Keep(xs, ys)| ==>
      IndexOf(xs, Keep(xs, ys)[i]) < IndexOf(xs, Keep(xs, ys)[j])
  {
    KeepDistinct(xs, ys);
    KeepOrder(xs, ys);
  }

  lemma {:induction false} KeepDistinct(xs: seq<RecordType>, ys: seq<RecordType>)
    requires NoDuplicates(xs)
    ensures Dedup(Keep(xs, ys)) == Keep(xs, ys)
  {
    if xs != [] {
      var init := xs[..|xs| - 1];
      var last := xs[|xs| - 1];
      KeepDistinct(init, ys);
      assert last !in init;
      if last in ys {
        assert Keep(xs, ys) == Keep(init, ys) + [last];
        assert Keep(xs, ys)[..|Keep(xs, ys)| - 1] == Keep(init, ys);
        assert last !in Keep(init, ys);
      }
    }
  }

  lemma {:induction false} KeepOrder(xs: seq<RecordType>, ys: seq<RecordType>)
    requires NoDuplicates(xs)
    ensures forall i, j :: 0 <= i < j < |Keep(xs, ys)| ==>
      IndexOf(xs, Keep(xs, ys)[i]) < IndexOf(xs, Keep(xs, ys)[j])
  {
    if xs != [] {
      var init := xs[..|xs| - 1];
      var last := xs[|xs| - 1];
      KeepOrder(init, ys);
      forall x | x in init ensures IndexOf(init, x) == IndexOf(xs, x) {
        IndexOfPrefix(xs, |xs| - 1, x);
      }
      assert last !in init;
      assert IndexOf(xs, last) == |xs| - 1;
      if last in ys {
        assert Keep(xs, ys) == Keep(init, ys) + [last];
      }
    }
  }

  /** The tried types are exactly the handled types that the rule declares
      and that the query asks for (all of them for an ANY request); they are
      listed without repetition, in the order of `AnyClasses`. */
  lemma {:induction false} TriedClassesSpec(ruleClasses: seq<RecordType>, requested: RecordType)
    ensures forall t :: t in TriedClasses(ruleClasses, requested) <==>
      t in AnyClasses && t in ruleClasses && (requested == AnyRequest || t == requested)
    ensures NoDuplicates(TriedClasses(ruleClasses, requested))
    ensures forall i, j :: 0 <= i < j < |TriedClasses(ruleClasses, requested)| ==>
      IndexOf(AnyClasses, TriedClasses(ruleClasses, requested)[i]) <
      IndexOf(AnyClasses, TriedClasses(ruleClasses, requested)[j])
    ensures requested != AnyRequest ==> |TriedClasses(ruleClasses, requested)| <= 1
  {
    var handled := Keep(AnyClasses, ruleClasses);
    KeepOfNoDuplicates(AnyClasses, ruleClasses);
    DedupMembers(handled);
    assert Intersect(AnyClasses, ruleClasses) == handled;
    if requested != AnyRequest {
      SingleRequest(handled, requested);
    }
  }

  /** A query for one handled type that the rule declares tries that type
      alone. */
  lemma TriedSingle(ruleClasses: seq<RecordType>, requested: RecordType)
    requires requested != AnyRequest && requested in AnyClasses && requested in ruleClasses
    ensures TriedClasses(ruleClasses, requested) == [requested]
  {
    TriedClassesSpec(ruleClasses, requested);
    var tried := TriedClasses(ruleClasses, requested);
    assert requested in tried;
    assert tried[0] == requested by { assert tried[0] in tried; }
  }

  lemma SingleRequest(handled: seq<RecordType>, requested: RecordType)
    requires NoDuplicates(handled)
    ensures |Intersect(handled, [requested])| <= 1
    ensures forall t :: t in Intersect(handled, [requested]) <==> t in handled && t == requested
  {
    var r := Keep(handled, [requested]);
    KeepOfNoDuplicates(handled, [requested]);
    DedupMembers(r);
    forall i | 0 <= i < |r| ensures r[i] == requested {
      assert r[i] in r;
    }
  }
}
