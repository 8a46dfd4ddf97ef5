/** The gate order of a quantum-dot group: splitting the list and recognising its pattern. */
module GateOrder {
  import opened Sequences

  // ---- split_semicolon ----------------------------------------------------

  /** The first `;`, or the end of the text. */
  function FindSemicolon(s: string): (e: nat)
    ensures e <= |s| && (e < |s| ==> s[e] == ';')
  {
    if s == "" || s[0] == ';' then 0 else 1 + FindSemicolon(s[1..])
  }

  lemma {:induction false} FindIsFirst(s: string, k: nat)
    requires k < |s|
    ensures k < FindSemicolon(s) ==> s[k] != ';'
    ensures s[k] == ';' ==> FindSemicolon(s) <= k
  {
    if 0 < k && s[0] != ';' {
      FindIsFirst(s[1..], k - 1);
    }
  }

  /** The parts of `s`; a final part that is empty is dropped. */
  function Split(s: string): seq<string> {
    var e := FindSemicolon(s);
    if e < |s| then [s[..e]] + Split(s[e + 1..])
    else if s == "" then []
    else [s]
  }

  function Join(parts: seq<string>): string {
    if parts == [] then ""
    else if |parts| == 1 then parts[0]
    else parts[0] + ";" + Join(parts[1..])
  }

  /** The text without one final semicolon. */
  function Trimmed(s: string): string {
    if s != "" && s[|s| - 1] == ';' then s[..|s| - 1] else s
  }

  lemma TrimmedTail(part: string, rest: string)
    requires rest != ""
    ensures Trimmed(part + ";" + rest) == part + ";" + Trimmed(rest)
  {
    var s := part + ";" + rest;
    assert s[|s| - 1] == rest[|rest| - 1];
    assert s[..|s| - 1] == part + ";" + rest[..|rest| - 1];
  }

  lemma JoinCons(part: string, rest: seq<string>)
    ensures Join([part] + rest) == if rest == [] then part else part + ";" + Join(rest)
  {
    assert ([part] + rest)[1..] == rest;
  }

  /** Joining the parts gives back the text, less one final semicolon if it ended in one. */
  lemma {:induction false} JoinSplit(s: string)
    ensures Join(Split(s)) == Trimmed(s)
  {
    var e := FindSemicolon(s);
    if e < |s| {
      var head, rest := s[..e], s[e + 1..];
      JoinSplit(rest);
      JoinCons(head, Split(rest));
      assert s == head + ";" + rest;
      if rest != "" {
        TrimmedTail(head, rest);
      }
    } else if s != "" {
      FindIsFirst(s, |s| - 1);
    }
  }

  /** No part contains a semicolon. */
  predicate Proper(parts: seq<string>) {
    forall i :: 0 <= i < |parts| ==> ';' !in parts[i]
  }

  lemma {:induction false} SplitIsProper(s: string)
    ensures Proper(Split(s))
  {
    var e := FindSemicolon(s);
    forall k | 0 <= k < e ensures s[k] != ';' {
      FindIsFirst(s, k);
    }
    if e < |s| {
      SplitIsProper(s[e + 1..]);
    }
  }

  lemma FindInPart(part: string, rest: string)
    requires ';' !in part
    ensures FindSemicolon(part + ";" + rest) == |part|
    ensures FindSemicolon(part) == |part|
  {
    var s := part + ";" + rest;
    assert s[|part|] == ';';
    assert forall k :: 0 <= k < |part| ==> s[k] == part[k];
    FindIsFirst(s, |part|);
  }

  /**
   * Splitting undoes joining exactly for lists of parts without semicolons
   * whose last part is not empty.
   */
  lemma {:induction false} SplitJoin(parts: seq<string>)
    requires Proper(parts)
    ensures Split(Join(parts)) == parts <==> parts == [] || parts[|parts| - 1] != ""
  {
    if |parts| == 1 {
      FindInPart(parts[0], "");
      assert parts == [parts[0]];
    } else if |parts| > 1 {
      var head, rest := parts[0], parts[1..];
      SplitJoin(rest);
      var s := Join(parts);
      FindInPart(head, Join(rest));
      assert s[..|head|] == head && s[|head| + 1..] == Join(rest);
      assert parts == [head] + rest;
      assert Split(s)[1..] == Split(Join(rest));
    }
  }

  lemma SplitAt(s: string, start: nat, end: nat)
    requires start <= end < |s| && end == start + FindSemicolon(s[start..])
    ensures Split(s[start..]) == [s[start..end]] + Split(s[end + 1..])
  {
    var rest := s[start..];
    assert rest[..end - start] == s[start..end];
    assert rest[end - start + 1..] == s[end + 1..];
  }

  method SplitSemicolon(s: string) returns (parts: seq<string>)
    ensures parts == Split(s)
  {
    parts := [];
    var start := 0;
    var end := FindSemicolon(s);
    assert s[0..] == s;
    while end < |s|
      invariant start <= |s| && end == start + FindSemicolon(s[start..])
      invariant parts + Split(s[start..]) == Split(s)
      decreases |s| - start
    {
      SplitAt(s, start, end);
      Regroup(parts, [s[start..end]], Split(s[end + 1..]));
      parts := parts + [s[start..end]];
      start := end + 1;
      end := start + FindSemicolon(s[start..]);
    }
    if start < |s| {
      parts := parts + [s[start..]];
    }
  }

  // ---- The order check ----------------------------------------------------

  /** The global gate lists the check consults. */
  datatype Gates = Gates(ohmics: seq<string>, reservoirs: seq<string>, barriers: seq<string>, plungers: seq<string>)

  datatype OrderError =
    | TooShort
    | FirstNotOhmic
    | LastNotOhmic
    | SecondNotReservoir
    | SecondLastNotReservoir
    | NotBarrier(at: nat)
    | NotPlunger(at: nat)
    | Unbalanced

  /** Barrier (Plunger Barrier)*. */
  predicate Centre(s: seq<string>, g: Gates) {
    if |s| == 0 then false
    else if |s| == 1 then s[0] in g.barriers
    else s[0] in g.barriers && s[1] in g.plungers && Centre(s[2..], g)
  }

  /** Ohmic Reservoir Barrier (Plunger Barrier)* Reservoir Ohmic. */
  predicate Pattern(order: seq<string>, g: Gates) {
    var n := |order|;
    && n >= 5
    && order[0] in g.ohmics && order[1] in g.reservoirs
    && Centre(order[2..n - 2], g)
    && order[n - 2] in g.reservoirs && order[n - 1] in g.ohmics
  }

  /** Position `i` of the centre holds the kind of gate its parity asks for. */
  predicate Fits(order: seq<string>, g: Gates, i: nat)
    requires i < |order|
  {
    if i % 2 == 0 then order[i] in g.barriers else order[i] in g.plungers
  }

  predicate FitsBetween(order: seq<string>, g: Gates, lo: nat, hi: nat)
    requires hi <= |order|
  {
    forall i :: lo <= i < hi ==> Fits(order, g, i)
  }

  /** The grammar in terms of positions. */
  lemma {:induction false} CentreByParity(order: seq<string>, g: Gates, lo: nat, hi: nat)
    requires lo <= hi <= |order| && lo % 2 == 0
    ensures Centre(order[lo..hi], g) <==> hi % 2 == 1 && FitsBetween(order, g, lo, hi)
    decreases hi - lo
  {
    var c := order[lo..hi];
    if hi >= lo + 2 {
      CentreByParity(order, g, lo + 2, hi);
      assert c[2..] == order[lo + 2..hi];
      assert c[0] == order[lo] && c[1] == order[lo + 1];
      assert Fits(order, g, lo) <==> c[0] in g.barriers;
      assert Fits(order, g, lo + 1) <==> c[1] in g.plungers;
    } else if hi == lo + 1 {
      assert Fits(order, g, lo) <==> c[0] in g.barriers;
    }
  }

  /** The complaints about the centre are those of the positions before `hi` that do not fit. */
  ghost predicate Misfits(errors: seq<OrderError>, order: seq<string>, g: Gates, hi: nat)
    requires hi <= |order|
  {
    forall e :: e in errors <==>
      || (e.NotBarrier? && 2 <= e.at < hi && e.at % 2 == 0 && !Fits(order, g, e.at))
      || (e.NotPlunger? && 2 <= e.at < hi && e.at % 2 == 1 && !Fits(order, g, e.at))
  }

  lemma MisfitsNone(errors: seq<OrderError>, order: seq<string>, g: Gates, hi: nat)
    requires hi <= |order| && Misfits(errors, order, g, hi)
    ensures errors == [] <==> FitsBetween(order, g, 2, hi)
  {
    if errors != [] {
      assert errors[0] in errors;
    }
    forall i | 2 <= i < hi && !Fits(order, g, i) ensures errors != [] {
      var e := if i % 2 == 0 then NotBarrier(i) else NotPlunger(i);
      assert e in errors;
    }
  }

  /** The loop over the centre of the order. */
  method CheckCentre(order: seq<string>, g: Gates) returns (errors: seq<OrderError>, barriers: int, plungers: int)
    requires |order| >= 3
    ensures Misfits(errors, order, g, if |order| > 4 then |order| - 2 else 2)
    ensures barriers == plungers + if |order| > 4 then |order| % 2 else 0
  {
    var n := |order|;
    errors, plungers, barriers := [], 0, 0;
    var i := 2;
    while i + 2 < n
      invariant 2 <= i <= n && (i + 2 <= n || i == 2)
      invariant Misfits(errors, order, g, i)
      invariant barriers == plungers + i % 2
    {
      if i % 2 == 0 {
        if order[i] !in g.barriers {
          errors := errors + [NotBarrier(i)];
        }
        barriers := barriers + 1;
      } else {
        if order[i] !in g.plungers {
          errors := errors + [NotPlunger(i)];
        }
        plungers := plungers + 1;
      }
      i := i + 1;
    }
  }

  /** The four complaints about the ends of the order. */
  ghost predicate EndErrors(errors: seq<OrderError>, order: seq<string>, g: Gates)
    requires |order| >= 3
  {
    var n := |order|;
    forall e :: e in errors <==>
      || (e.FirstNotOhmic? && order[0] !in g.ohmics)
      || (e.LastNotOhmic? && order[n - 1] !in g.ohmics)
      || (e.SecondNotReservoir? && order[1] !in g.reservoirs)
      || (e.SecondLastNotReservoir? && order[n - 2] !in g.reservoirs)
  }

  method CheckEnds(order: seq<string>, g: Gates) returns (errors: seq<OrderError>)
    requires |order| >= 3
    ensures EndErrors(errors, order, g)
  {
    var n := |order|;
    errors := [];
    if order[0] !in g.ohmics {
      errors := errors + [FirstNotOhmic];
    }
    if order[n - 1] !in g.ohmics {
      errors := errors + [LastNotOhmic];
    }
    if order[1] !in g.reservoirs {
      errors := errors + [SecondNotReservoir];
    }
    if order[n - 2] !in g.reservoirs {
      errors := errors + [SecondLastNotReservoir];
    }
  }

  lemma EndsNone(errors: seq<OrderError>, order: seq<string>, g: Gates)
    requires |order| >= 3 && EndErrors(errors, order, g)
    ensures errors == [] <==>
            && order[0] in g.ohmics && order[1] in g.reservoirs
            && order[|order| - 2] in g.reservoirs && order[|order| - 1] in g.ohmics
  {
    if errors == [] {
      assert FirstNotOhmic !in errors && LastNotOhmic !in errors;
      assert SecondNotReservoir !in errors && SecondLastNotReservoir !in errors;
    } else {
      assert errors[0] in errors;
    }
  }

  /**
   * The check reports nothing exactly for orders of the intended form, and
   * the positions it names are exactly the misplaced ones of the centre.
   */
  method ValidateOrder(order: seq<string>, g: Gates) returns (errors: seq<OrderError>)
    ensures errors == [] <==> Pattern(order, g)
    ensures forall k: nat :: NotBarrier(k) in errors <==>
              2 <= k < |order| - 2 && k % 2 == 0 && order[k] !in g.barriers
    ensures forall k: nat :: NotPlunger(k) in errors <==>
              2 <= k < |order| - 2 && k % 2 == 1 && order[k] !in g.plungers
  {
    var n := |order|;
    if n < 3 {
      return [TooShort];
    }
    var ends := CheckEnds(order, g);
    var centre, barriers, plungers := CheckCentre(order, g);
    errors := ends + centre;
    if barriers != plungers + 1 {
      errors := errors + [Unbalanced];
    }
    EndsNone(ends, order, g);
    if n >= 5 {
      MisfitsNone(centre, order, g, n - 2);
      CentreByParity(order, g, 2, n - 2);
    }
  }
}
