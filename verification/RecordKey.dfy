/** Compound record keys: the base64url text of each part, joined by dots. */
module RecordKey {
  import opened Base64
  import opened Text

  function Encoded(parts: seq<seq<Byte>>): seq<string> {
    seq(|parts|, i requires 0 <= i < |parts| => Encode(Url, parts[i]))
  }

  method JoinKey(parts: seq<seq<Byte>>) returns (key: string)
    ensures key == Join(Encoded(parts), '.')
  {
    var encoded: seq<string> := [];
    for i := 0 to |parts|
      invariant encoded == Encoded(parts)[..i]
    {
      encoded := encoded + [Encode(Url, parts[i])];
    }
    assert Encoded(parts)[..|parts|] == Encoded(parts);
    key := Join(encoded, '.');
  }

  /** Splitting a key gives back its encoded parts. */
  lemma KeySplits(parts: seq<seq<Byte>>)
    requires parts != []
    ensures Split(Join(Encoded(parts), '.'), '.') == Encoded(parts)
  {
    forall p | p in Encoded(parts) ensures '.' !in p {
      var i :| 0 <= i < |parts| && p == Encode(Url, parts[i]);
      EncodeAvoids(Url, parts[i], '.');
    }
    SplitUndoesJoin(Encoded(parts), '.');
  }

  /** The one collision: no part at all and one empty part share the empty key. */
  predicate Collide(a: seq<seq<Byte>>, b: seq<seq<Byte>>) {
    (a == [] && b == [""]) || (a == [""] && b == [])
  }

  /** Keys agree exactly for equal part lists, but for the one collision; so non-empty lists have distinct keys. */
  lemma KeysAgreeIff(a: seq<seq<Byte>>, b: seq<seq<Byte>>)
    ensures Join(Encoded(a), '.') == Join(Encoded(b), '.') <==> a == b || Collide(a, b)
  {
    if Join(Encoded(a), '.') == Join(Encoded(b), '.') {
      if a == [] && b != [] {
        KeySplits(b);
        EmptyKey(b);
      } else if b == [] && a != [] {
        KeySplits(a);
        EmptyKey(a);
      } else if a != [] {
        KeySplits(a);
        KeySplits(b);
        PartsOfKey(a, b);
      }
    }
  }

  lemma PartsOfKey(a: seq<seq<Byte>>, b: seq<seq<Byte>>)
    requires Encoded(a) == Encoded(b)
    ensures a == b
  {
    assert |a| == |Encoded(a)| == |b|;
    forall i | 0 <= i < |a| ensures a[i] == b[i] {
      assert Encoded(a)[i] == Encoded(b)[i];
      EncodeIsInjective(Url, a[i], b[i]);
    }
  }

  lemma EmptyKey(b: seq<seq<Byte>>)
    requires Encoded(b) == Split("", '.')
    ensures b == [""]
  {
    assert Encoded(b)[0] == "" && |b| == |Encoded(b)| == 1;
    assert b[0] == "";
  }
}
