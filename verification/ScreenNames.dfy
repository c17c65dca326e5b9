/** Screen names (state/user.go): Go strings are byte sequences; only ASCII letters have a lower case here. */
module ScreenNames {
  import opened Bytes

  type Name = seq<byte>

  const SPACE: byte := 32

  function Lower(b: byte): byte {
    if 65 <= b <= 90 then b + 32 else b
  }

  /** `NewIdentScreenName`: spaces dropped, letters lowered. */
  function Ident(name: Name): (r: Name)
    ensures SPACE !in r
  {
    if name == [] then []
    else if name[0] == SPACE then Ident(name[1..])
    else [Lower(name[0])] + Ident(name[1..])
  }

  lemma {:induction false} IdentIdempotent(name: Name)
    ensures Ident(Ident(name)) == Ident(name)
    decreases |name|
  {
    if name != [] {
      IdentIdempotent(name[1..]);
      if name[0] != SPACE {
        assert Ident(name)[1..] == Ident(name[1..]);
      }
    }
  }

  /** Byte by byte: a space goes, a capital becomes small, anything else stays. */
  lemma {:induction false} IdentSplit(a: Name, b: Name)
    ensures Ident(a + b) == Ident(a) + Ident(b)
    decreases |a|
  {
    if a == [] {
      assert a + b == b;
    } else {
      IdentSplit(a[1..], b);
      assert (a + b)[1..] == a[1..] + b;
    }
  }

  lemma IdentOfByte(c: byte)
    ensures Ident([c]) == if c == 32 then [] else if 65 <= c <= 90 then [c + 32] else [c]
  {
    assert [c][1..] == [];
  }
}
