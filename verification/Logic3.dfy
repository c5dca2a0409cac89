/** SQL's three-valued logic. */
module Logic3 {
  datatype Tri = True | False | Unknown

  function Not(a: Tri): Tri
  {
    match a case True => False case False => True case Unknown => Unknown
  }

  function And(a: Tri, b: Tri): Tri
  {
    if a == False || b == False then False else if a == True && b == True then True else Unknown
  }

  function Or(a: Tri, b: Tri): Tri
  {
    if a == True || b == True then True else if a == False && b == False then False else Unknown
  }

  function All(ts: seq<Tri>): Tri
  {
    if ts == [] then True else And(ts[0], All(ts[1..]))
  }

  function Any(ts: seq<Tri>): Tri
  {
    if ts == [] then False else Or(ts[0], Any(ts[1..]))
  }

  predicate AllAre(ts: seq<Tri>, t: Tri)
  {
    forall i :: 0 <= i < |ts| ==> ts[i] == t
  }

  lemma {:induction false} AllAreBoth(a: seq<Tri>, b: seq<Tri>, t: Tri)
    ensures AllAre(a + b, t) <==> AllAre(a, t) && AllAre(b, t)
  {
    if AllAre(a + b, t) {
      assert forall i :: 0 <= i < |a| ==> a[i] == (a + b)[i];
      assert forall i :: 0 <= i < |b| ==> b[i] == (a + b)[|a| + i];
    }
  }

  /** A conjunction is true if everything in it is, and false if something in it is. */
  lemma {:induction false} AllIff(ts: seq<Tri>)
    ensures All(ts) == True <==> AllAre(ts, True)
    ensures All(ts) == False <==> False in ts
  {
    if ts == [] {
    } else {
      AllIff(ts[1..]);
      assert ts == [ts[0]] + ts[1..];
      AllAreBoth([ts[0]], ts[1..], True);
    }
  }

  /** A disjunction is true if something in it is, and false if everything in it is. */
  lemma {:induction false} AnyIff(ts: seq<Tri>)
    ensures Any(ts) == True <==> True in ts
    ensures Any(ts) == False <==> AllAre(ts, False)
  {
    if ts == [] {
    } else {
      AnyIff(ts[1..]);
      assert ts == [ts[0]] + ts[1..];
      AllAreBoth([ts[0]], ts[1..], False);
    }
  }
}
