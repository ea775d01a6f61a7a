/** Process names in the order a sort puts them. */
module Names {

  /** Character by character; a name is before those it begins. */
  predicate Less(a: string, b: string) {
    b != "" && (a == "" || a[0] < b[0] || (a[0] == b[0] && Less(a[1..], b[1..])))
  }

  lemma {:induction false} OneOrTheOther(a: string, b: string)
    ensures a == b || Less(a, b) || Less(b, a)
    ensures !(Less(a, b) && Less(b, a)) && !Less(a, a)
  {
    if a != "" {
      OneOrTheOther(a[1..], a[1..]);
      if b != "" {
        OneOrTheOther(a[1..], b[1..]);
        if a[0] == b[0] && a[1..] == b[1..] { assert a == [a[0]] + a[1..] && b == [b[0]] + b[1..]; }
      }
    }
  }

  lemma {:induction false} LessOn(a: string, b: string, c: string)
    requires Less(a, b) && Less(b, c)
    ensures Less(a, c)
  {
    if a != "" && a[0] == b[0] == c[0] { LessOn(a[1..], b[1..], c[1..]); }
  }

  ghost predicate Increasing(names: seq<string>) {
    forall i, j {:trigger Less(names[i], names[j])} :: 0 <= i < j < |names| ==> Less(names[i], names[j])
  }

  /** Each name of the set once, in order. */
  ghost predicate IsListing(names: seq<string>, s: set<string>) {
    Increasing(names) && forall n :: n in names <==> n in s
  }

  function Insert(n: string, names: seq<string>): seq<string> {
    if names == [] || Less(n, names[0]) then [n] + names else [names[0]] + Insert(n, names[1..])
  }

  lemma {:induction false} InsertHas(n: string, names: seq<string>, m: string)
    ensures m in Insert(n, names) <==> m == n || m in names
  {
    if names != [] && !Less(n, names[0]) { InsertHas(n, names[1..], m); }
  }

  lemma {:induction false} InsertInOrder(n: string, names: seq<string>)
    requires Increasing(names) && n !in names
    ensures Increasing(Insert(n, names))
  {
    if names == [] {
    } else if Less(n, names[0]) {
      forall j | 0 <= j < |names| ensures Less(n, names[j]) {
        if j > 0 { LessOn(n, names[0], names[j]); }
      }
    } else {
      var rest := Insert(n, names[1..]);
      InsertInOrder(n, names[1..]);
      OneOrTheOther(n, names[0]);
      forall j | 0 <= j < |rest| ensures Less(names[0], rest[j]) {
        InsertHas(n, names[1..], rest[j]);
        if rest[j] != n { var i :| 0 <= i < |names[1..]| && names[1..][i] == rest[j]; }
      }
    }
  }

  lemma AtHead(a: seq<string>, n: string)
    requires Increasing(a) && n in a
    ensures n == a[0] || Less(a[0], n)
  {
    var i :| 0 <= i < |a| && a[i] == n;
  }

  lemma NotInTail(a: seq<string>)
    requires Increasing(a) && a != []
    ensures a[0] !in a[1..]
  {
    OneOrTheOther(a[0], a[0]);
  }

  lemma NoneListed(a: seq<string>, s: set<string>)
    requires IsListing(a, s)
    ensures a == [] <==> s == {}
  {
    if a != [] { assert a[0] in s; }
    if s != {} {
      var n :| n in s;
      assert n in a;
    }
  }

  /** A set has one listing. */
  lemma {:induction false} OneListing(a: seq<string>, b: seq<string>, s: set<string>)
    requires IsListing(a, s) && IsListing(b, s)
    ensures a == b
  {
    NoneListed(a, s);
    NoneListed(b, s);
    if a != [] {
      assert a[0] in s && a[0] in b && b[0] in s && b[0] in a;
      AtHead(a, b[0]);
      AtHead(b, a[0]);
      OneOrTheOther(a[0], b[0]);
      NotInTail(a);
      NotInTail(b);
      TailLists(a, s);
      TailLists(b, s);
      OneListing(a[1..], b[1..], s - {a[0]});
      assert a == [a[0]] + a[1..] && b == [b[0]] + b[1..];
    }
  }

  lemma TailLists(a: seq<string>, s: set<string>)
    requires IsListing(a, s) && a != []
    ensures IsListing(a[1..], s - {a[0]})
  {
    NotInTail(a);
    assert a == [a[0]] + a[1..];
  }

  /** The names of a set, sorted. */
  method Listing(s: set<string>) returns (names: seq<string>)
    ensures IsListing(names, s)
  {
    names := [];
    var left := s;
    while left != {}
      invariant left <= s && IsListing(names, s - left)
      decreases left
    {
      var n :| n in left;
      InsertInOrder(n, names);
      forall m ensures m in Insert(n, names) <==> m in s - (left - {n}) { InsertHas(n, names, m); }
      names, left := Insert(n, names), left - {n};
    }
  }
}
