/** The lexicographic order of std::string, and iteration of a std::map or
    std::set in ascending key order. */
module StringOrder {

  predicate Less(a: string, b: string)
  {
    if b == "" then false
    else if a == "" then true
    else if a[0] != b[0] then a[0] < b[0]
    else Less(a[1..], b[1..])
  }

  lemma LessIsTransitive(a: string, b: string, c: string)
    requires Less(a, b) && Less(b, c)
    ensures Less(a, c)
  {
  }

  lemma LessIsTotal(a: string, b: string)
    ensures Less(a, b) || a == b || Less(b, a)
    ensures !(Less(a, b) && Less(b, a)) && !Less(a, a)
  {
    if a != "" && b != "" && a[0] == b[0] {
      LessIsTotal(a[1..], b[1..]);
      if a[1..] == b[1..] {
        assert a == [a[0]] + a[1..] && b == [b[0]] + b[1..];
      }
    }
  }

  predicate Ascending(keys: seq<string>)
  {
    forall i, j :: 0 <= i < j < |keys| ==> Less(keys[i], keys[j])
  }

  lemma {:induction false} LeastExists(keys: set<string>) returns (least: string)
    requires keys != {}
    ensures least in keys && forall k :: k in keys ==> !Less(k, least)
  {
    least :| least in keys;
    if keys == {least} {
      LessIsTotal(least, least);
      return;
    }
    var other := LeastExists(keys - {least});
    LessIsTotal(least, least);
    LessIsTotal(least, other);
    if Less(other, least) {
      least := other;
    } else {
      forall k | k in keys
        ensures !Less(k, least)
      {
        if k != least && Less(k, least) {
          if least != other {
            LessIsTransitive(k, least, other);
          }
        }
      }
    }
  }

  /** The keys in the order a std::map or std::set visits them. */
  method AscendingKeys(keys: set<string>) returns (r: seq<string>)
    ensures Ascending(r) && forall k :: k in r <==> k in keys
  {
    r := [];
    var rest := keys;
    while rest != {}
      invariant rest <= keys && forall k :: k in r <==> k in keys && k !in rest
      invariant Ascending(r) && forall k, m :: k in r && m in rest ==> Less(k, m)
      decreases rest
    {
      ghost var known := LeastExists(rest);
      var least :| least in rest && forall k :: k in rest ==> !Less(k, least);
      forall m | m in rest && m != least
        ensures Less(least, m)
      {
        LessIsTotal(least, m);
      }
      rest := rest - {least};
      r := r + [least];
    }
  }

  lemma AscendingIsDistinct(keys: seq<string>)
    requires Ascending(keys)
    ensures forall i, j :: 0 <= i < j < |keys| ==> keys[i] != keys[j]
  {
    forall i, j | 0 <= i < j < |keys|
      ensures keys[i] != keys[j]
    {
      LessIsTotal(keys[i], keys[j]);
    }
  }
}
