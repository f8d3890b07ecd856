/** `EntityHelper.ParamsIndex`: the source of parameter names shared by the
    bound-mode generator and the filter accumulator. Every read hands out a
    new name: a fixed prefix followed by the decimal rendering of a counter. */
module EntityHelper {
  import opened Strings

  /** The k-th name the generator hands out. */
  function ParamName(prefix: string, k: nat): (r: string)
    ensures |r| > |prefix| && r[..|prefix|] == prefix
    ensures forall c :: c in r ==> c in prefix || IsDigit(c)
  {
    prefix + NatStr(k)
  }

  /** Names drawn at different counter values never clash. */
  lemma {:induction false} ParamNameInjective(prefix: string, a: nat, b: nat)
    requires ParamName(prefix, a) == ParamName(prefix, b)
    ensures a == b
  {
    assert NatStr(a) == ParamName(prefix, a)[|prefix|..];
    assert NatStr(b) == ParamName(prefix, b)[|prefix|..];
    NatStrInjective(a, b);
  }

  /** A name holds no brace when its prefix holds none. */
  lemma ParamNameBraceFree(prefix: string, k: nat)
    requires NoBraces(prefix)
    ensures NoBraces(ParamName(prefix, k))
  {
    assert forall c :: c in ParamName(prefix, k) ==> c in prefix || IsDigit(c);
  }

  /** The generator: its prefix and the number of names it has handed out. */
  class ParamsIndex {
    const prefix: string
    var issued: nat

    constructor (prefix: string)
      ensures this.prefix == prefix && issued == 0
    {
      this.prefix := prefix;
      issued := 0;
    }

    /** Reads `ParamsIndex`: the next name, never handed out before. */
    method Next() returns (name: string)
      modifies this`issued
      ensures name == ParamName(prefix, old(issued)) && issued == old(issued) + 1
      ensures forall k: nat :: k < old(issued) ==> name != ParamName(prefix, k)
    {
      name := ParamName(prefix, issued);
      forall k: nat | k < issued ensures name != ParamName(prefix, k) {
        if name == ParamName(prefix, k) {
          ParamNameInjective(prefix, issued, k);
        }
      }
      issued := issued + 1;
    }
  }
}
