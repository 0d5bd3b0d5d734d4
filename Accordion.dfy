/**
 * The exclusive accordion of `habilitarAcordeon` (script.js:176-200): one
 * "abierta" flag per category section, all cleared when the sections are
 * drawn; a click on a section's title closes every section and then
 * reopens the clicked one unless it was the open one.
 */
module Accordion {

  /** Number of open sections. */
  function Abiertas(flags: seq<bool>): nat {
    if |flags| == 0 then 0
    else Abiertas(flags[..|flags| - 1]) + (if flags[|flags| - 1] then 1 else 0)
  }

  /** Every section closed. */
  function Cerradas(n: nat): (flags: seq<bool>)
    ensures |flags| == n
  {
    seq(n, _ => false)
  }

  /** The state after a click on section `i`: all closed, then `i` open
      when it was closed before. */
  function Transicion(flags: seq<bool>, i: nat): (r: seq<bool>)
    requires i < |flags|
    ensures |r| == |flags|
    ensures r[i] == !flags[i]
    ensures forall k | 0 <= k < |r| && k != i :: !r[k]
  {
    if flags[i] then Cerradas(|flags|) else Cerradas(|flags|)[i := true]
  }

  /** The flags of the sections, one per `.categoria` element. */
  class Acordeon {
    var abierta: array<bool>

    /** Drawing the sections clears every flag (script.js:181). */
    constructor (n: nat)
      ensures fresh(abierta) && abierta[..] == Cerradas(n)
      ensures Abiertas(abierta[..]) == 0
    {
      abierta := new bool[n](_ => false);
      CerradasNone(n);
    }

    /** The click listener of script.js:183-198. */
    method Clic(i: nat)
      requires i < abierta.Length
      modifies abierta
      ensures abierta[..] == Transicion(old(abierta[..]), i)
      ensures Abiertas(abierta[..]) <= 1
    {
      var estabaAbierta := abierta[i];
      var j := 0;
      while j < abierta.Length
        invariant 0 <= j <= abierta.Length
        invariant forall k | 0 <= k < j :: !abierta[k]
        invariant forall k | j <= k < abierta.Length :: abierta[k] == old(abierta[k])
      {
        abierta[j] := false;
        j := j + 1;
      }
      if !estabaAbierta {
        abierta[i] := true;
      }
      ClicAbiertas(old(abierta[..]), i);
    }
  }

  // ---------------------------------------------------------------------
  // properties
  // ---------------------------------------------------------------------

  lemma {:induction false} CerradasNone(n: nat)
    ensures Abiertas(Cerradas(n)) == 0
  {
    if n > 0 {
      assert Cerradas(n)[..n - 1] == Cerradas(n - 1);
      CerradasNone(n - 1);
    }
  }

  /** Opening one closed section of an all-closed row opens exactly one. */
  lemma {:induction false} OnlyOneOpen(n: nat, i: nat)
    requires i < n
    ensures Abiertas(Cerradas(n)[i := true]) == 1
  {
    var s := Cerradas(n)[i := true];
    if i == n - 1 {
      assert s[..n - 1] == Cerradas(n - 1);
      CerradasNone(n - 1);
    } else {
      assert s[..n - 1] == Cerradas(n - 1)[i := true];
      OnlyOneOpen(n - 1, i);
    }
  }

  /** Whatever the state before, a click leaves at most one section open:
      none when the clicked one was open, one otherwise. */
  lemma ClicAbiertas(flags: seq<bool>, i: nat)
    requires i < |flags|
    ensures Abiertas(Transicion(flags, i)) == if flags[i] then 0 else 1
    ensures Abiertas(Transicion(flags, i)) <= 1
  {
    if flags[i] {
      CerradasNone(|flags|);
    } else {
      OnlyOneOpen(|flags|, i);
    }
  }

  /** A click on the open section closes everything; a click on a closed
      one leaves exactly that section open. */
  lemma ClicToggle(flags: seq<bool>, i: nat)
    requires i < |flags|
    ensures flags[i] ==> forall k | 0 <= k < |flags| :: !Transicion(flags, i)[k]
    ensures !flags[i] ==> forall k | 0 <= k < |flags| :: Transicion(flags, i)[k] <==> k == i
  {
  }

  /** Clicking A and then a different B leaves only B open; clicking a
      closed A twice leaves everything closed (and an open A twice, A open). */
  lemma ClicSequence(flags: seq<bool>, a: nat, b: nat)
    requires a < |flags| && b < |flags|
    ensures a != b ==> forall k | 0 <= k < |flags| :: Transicion(Transicion(flags, a), b)[k] <==> k == b
    ensures !flags[a] ==> Transicion(Transicion(flags, a), a) == Cerradas(|flags|)
    ensures flags[a] ==> Transicion(Transicion(flags, a), a) == Cerradas(|flags|)[a := true]
  {
  }
}
