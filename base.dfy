/** Failure-compatible wrappers, the Ruby exceptions the core can raise, and
    the order-preserving de-duplication that Ruby's `Array#uniq` and `Array#&`
    perform. */
module Base {

  datatype Option<+T> = None | Some(value: T)

  /** The exceptions the modelled code raises or lets escape. */
  datatype Error =
    | InvalidRule   // DevDNSd::Errors::InvalidRule (lib/devdnsd/errors.rb)
    | NoMethod      // Ruby NoMethodError: a method called on a value that lacks it
    | BadArgument   // Ruby ArgumentError

  datatype Result<+T> = Ok(value: T) | Err(error: Error)

  predicate NoDuplicates<T(==)>(s: seq<T>)
  {
    forall i, j :: 0 <= i < j < |s| ==> s[i] != s[j]
  }

  /** Appending an element the sequence lacks keeps it free of duplicates,
      and the sequence is a prefix of the result. */
  lemma AppendFresh<T>(s: seq<T>, x: T)
    requires NoDuplicates(s) && x !in s
    ensures NoDuplicates(s + [x]) && (s + [x])[..|s|] == s
  {
  }

  /** Index of the first occurrence of `x` in `s`. */
  function IndexOf<T(==)>(s: seq<T>, x: T): (k: nat)
    requires x in s
    ensures k < |s| && s[k] == x
    ensures forall i :: 0 <= i < k ==> s[i] != x
  {
    if s[0] == x then 0 else 1 + IndexOf(s[1..], x)
  }

  lemma {:induction false} IndexOfPrefix<T>(s: seq<T>, n: nat, x: T)
    requires n <= |s| && x in s[..n]
    ensures x in s && IndexOf(s[..n], x) == IndexOf(s, x)
  {
    assert s[..n][0] == s[0];
    if s[0] != x {
      assert s[..n][1..] == s[1..][..n - 1];
      IndexOfPrefix(s[1..], n - 1, x);
    }
  }

  /** `Array#uniq`: keeps the first occurrence of every element, in order. */
  function Dedup<T(==)>(s: seq<T>): seq<T>
  {
    if s == [] then []
    else
      var d := Dedup(s[..|s| - 1]);
      if s[|s| - 1] in d then d else d + [s[|s| - 1]]
  }

  lemma {:induction false} DedupMembers<T>(s: seq<T>)
    ensures forall x :: x in Dedup(s) <==> x in s
    ensures NoDuplicates(Dedup(s))
  {
    if s != [] {
      var init := s[..|s| - 1];
      DedupMembers(init);
      assert s == init + [s[|s| - 1]];
    }
  }

  /** The result of `Dedup` lists the distinct elements in order of their
      first occurrence in the input. */
  lemma {:induction false} DedupOrder<T>(s: seq<T>)
    ensures forall x :: x in Dedup(s) ==> x in s
    ensures forall i, j :: 0 <= i < j < |Dedup(s)| ==>
      IndexOf(s, Dedup(s)[i]) < IndexOf(s, Dedup(s)[j])
  {
    DedupMembers(s);
    if s != [] {
      var n := |s| - 1;
      var init := s[..n];
      DedupOrder(init);
      DedupMembers(init);
      var d := Dedup(s);
      var di := Dedup(init);
      forall x | x in di ensures x in s && IndexOf(s, x) == IndexOf(init, x) {
        IndexOfPrefix(s, n, x);
      }
      if s[n] !in di {
        assert s[n] !in init;
        assert IndexOf(s, s[n]) == n;
        forall i, j | 0 <= i < j < |d|
          ensures IndexOf(s, d[i]) < IndexOf(s, d[j])
        {
          assert d[i] == di[i];
          if j < |di| {
            assert d[j] == di[j];
          } else {
            assert d[j] == s[n];
          }
        }
      }
    }
  }
}
