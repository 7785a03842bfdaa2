/**
 * Token streams: the model's stand-in for `quote::Tokens`. Spacing, which
 * `to_string` adds between tokens, is not modelled; a string literal is one
 * `Lit` token holding its unescaped contents.
 */
module Tokens {

  datatype Token = Ident(text: string) | Punct(text: string) | Lit(text: string)

  type Tokens = seq<Token>

  /** Every fragment followed by a comma: the fold that appends `#tokens ,`. */
  function CommaTerminated(parts: seq<Tokens>): Tokens
  {
    if parts == [] then [] else parts[0] + [Punct(",")] + CommaTerminated(parts[1..])
  }

  /** The fragments with `sep` between neighbours and nowhere else: quote's `#(#x)sep*`. */
  function Separated(parts: seq<Tokens>, sep: Token): Tokens
  {
    if parts == [] then []
    else if |parts| == 1 then parts[0]
    else parts[0] + [sep] + Separated(parts[1..], sep)
  }

  /** Where fragment i starts when every earlier fragment is followed by one extra token. */
  function Offset(parts: seq<Tokens>, i: nat): nat
    requires i <= |parts|
  {
    if i == 0 then 0 else |parts[0]| + 1 + Offset(parts[1..], i - 1)
  }

  /** Offsets grow with the index. */
  lemma {:induction false} OffsetMonotone(parts: seq<Tokens>, i: nat, j: nat)
    requires i < j <= |parts|
    ensures Offset(parts, i) + |parts[i]| + 1 <= Offset(parts, j)
  {
    if i > 0 {
      OffsetMonotone(parts[1..], i - 1, j - 1);
    } else if j > 1 {
      OffsetMonotone(parts[1..], 0, j - 1);
    }
  }

  /** A comma-terminated list is exactly as long as its fragments plus one comma each. */
  lemma {:induction false} CommaTerminatedLength(parts: seq<Tokens>)
    ensures |CommaTerminated(parts)| == Offset(parts, |parts|)
  {
    if parts != [] {
      CommaTerminatedLength(parts[1..]);
    }
  }

  /**
   * Order is kept and every fragment is followed by a comma: fragment i sits
   * unchanged at Offset(parts, i) and the token right after it is `,`.
   */
  lemma {:induction false} CommaTerminatedAt(parts: seq<Tokens>, i: nat)
    requires i < |parts|
    ensures Offset(parts, i) + |parts[i]| < |CommaTerminated(parts)|
    ensures CommaTerminated(parts)[Offset(parts, i)..Offset(parts, i) + |parts[i]|] == parts[i]
    ensures CommaTerminated(parts)[Offset(parts, i) + |parts[i]|] == Punct(",")
  {
    var head := parts[0] + [Punct(",")];
    assert CommaTerminated(parts) == head + CommaTerminated(parts[1..]);
    if i > 0 {
      CommaTerminatedAt(parts[1..], i - 1);
      var o := Offset(parts[1..], i - 1);
      assert Offset(parts, i) == |head| + o;
      assert parts[1..][i - 1] == parts[i];
    }
  }

  /** A separated list of n >= 1 fragments is as long as its fragments plus n - 1 separators. */
  lemma {:induction false} SeparatedLength(parts: seq<Tokens>, sep: Token)
    requires parts != []
    ensures |Separated(parts, sep)| + 1 == Offset(parts, |parts|)
  {
    if |parts| > 1 {
      SeparatedLength(parts[1..], sep);
    }
  }

  /**
   * Order is kept and separators stand only between neighbours: fragment i
   * sits unchanged at Offset(parts, i), followed by `sep` unless it is the last.
   */
  lemma {:induction false} SeparatedAt(parts: seq<Tokens>, sep: Token, i: nat)
    requires i < |parts|
    ensures Offset(parts, i) + |parts[i]| <= |Separated(parts, sep)|
    ensures i + 1 < |parts| ==> Offset(parts, i) + |parts[i]| < |Separated(parts, sep)|
    ensures Separated(parts, sep)[Offset(parts, i)..Offset(parts, i) + |parts[i]|] == parts[i]
    ensures i + 1 < |parts| ==> Separated(parts, sep)[Offset(parts, i) + |parts[i]|] == sep
    ensures i + 1 == |parts| ==> Offset(parts, i) + |parts[i]| == |Separated(parts, sep)|
  {
    if |parts| > 1 {
      var head := parts[0] + [sep];
      assert Separated(parts, sep) == head + Separated(parts[1..], sep);
      if i > 0 {
        SeparatedAt(parts[1..], sep, i - 1);
        assert Offset(parts, i) == |head| + Offset(parts[1..], i - 1);
        assert parts[1..][i - 1] == parts[i];
      } else {
        SeparatedLength(parts[1..], sep);
      }
    }
  }
}
