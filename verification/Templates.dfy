/**
 * Command templates: the placeholder scan of the validator, the fixed-buffer
 * substitution of the VISA plugin, and why the two agree.
 */
module Templates {
  import opened Options
  import opened Protocol
  import Sequences

  /** A character to copy, or a placeholder `{name}`. */
  datatype Piece = Lit(c: char) | Hole(name: string)

  /** A parameter value as text: printed by `snprintf`, or a string copied as it is. */
  datatype Param = Param(name: string, text: string, isString: bool)

  /** The first `}` at or after `i`, or the end of the text (`strchr`). */
  function Close(t: string, i: nat): (e: nat)
    requires i <= |t|
    ensures i <= e <= |t| && (e < |t| ==> t[e] == '}')
    decreases |t| - i
  {
    if i == |t| || t[i] == '}' then i else Close(t, i + 1)
  }

  lemma {:induction false} CloseIsFirst(t: string, i: nat, k: nat)
    requires i <= k < |t|
    ensures k < Close(t, i) ==> t[k] != '}'
    ensures t[k] == '}' ==> Close(t, i) <= k
    decreases |t| - i
  {
    if i < k && t[i] != '}' {
      CloseIsFirst(t, i + 1, k);
    }
  }

  predicate AtHole(t: string, i: nat)
    requires i < |t|
  {
    t[i] == '{' && Close(t, i) < |t|
  }

  // ---- The pure form ------------------------------------------------------

  datatype Pieces = End | Next(head: Piece, rest: Pieces)

  /** One left-to-right pass over the template. */
  function Scan(t: string, i: nat): Pieces
    decreases |t| - i
  {
    if i >= |t| then End
    else if AtHole(t, i) then Next(Hole(t[i + 1..Close(t, i)]), Scan(t, Close(t, i) + 1))
    else Next(Lit(t[i]), Scan(t, i + 1))
  }

  function Source(p: Piece): string {
    match p case Lit(c) => [c] case Hole(name) => "{" + name + "}"
  }

  function Unparse(ps: Pieces): string {
    match ps case End => "" case Next(p, rest) => Source(p) + Unparse(rest)
  }

  lemma HoleText(t: string, i: nat, e: nat)
    requires i < e < |t| && t[i] == '{' && t[e] == '}'
    ensures Source(Hole(t[i + 1..e])) + t[e + 1..] == t[i..]
  {
    assert t[i..] == [t[i]] + t[i + 1..e] + [t[e]] + t[e + 1..];
  }

  lemma LitText(t: string, i: nat)
    requires i < |t|
    ensures Source(Lit(t[i])) + t[i + 1..] == t[i..]
  {
  }

  lemma UnparseHole(t: string, i: nat, rest: Pieces)
    requires i < |t| && AtHole(t, i) && Unparse(rest) == t[Close(t, i) + 1..]
    ensures Unparse(Next(Hole(t[i + 1..Close(t, i)]), rest)) == t[i..]
  {
    HoleText(t, i, Close(t, i));
  }

  lemma UnparseLit(t: string, i: nat, rest: Pieces)
    requires i < |t| && Unparse(rest) == t[i + 1..]
    ensures Unparse(Next(Lit(t[i]), rest)) == t[i..]
  {
    LitText(t, i);
  }

  /** The pieces written one after the other are the template. */
  lemma {:induction false} UnparseScan(t: string, i: nat)
    requires i <= |t|
    ensures Unparse(Scan(t, i)) == t[i..]
    decreases |t| - i
  {
    if i < |t| {
      if AtHole(t, i) {
        var next := Close(t, i) + 1;
        UnparseScan(t, next);
        UnparseHole(t, i, Scan(t, next));
      } else {
        UnparseScan(t, i + 1);
        UnparseLit(t, i, Scan(t, i + 1));
      }
    }
  }

  // ---- The scan is the only reading of a template -------------------------

  /** A placeholder's name stops at the first `}`, and a `{` is literal only if no `}` follows. */
  predicate Canonical(ps: Pieces) {
    match ps
    case End => true
    case Next(p, rest) =>
      && (match p case Lit(c) => c == '{' ==> '}' !in Unparse(rest) case Hole(name) => '}' !in name)
      && Canonical(rest)
  }

  lemma NoCloseAfter(t: string, i: nat)
    requires i < |t| && t[i] == '{' && !AtHole(t, i)
    ensures '}' !in t[i + 1..]
  {
    var rest := t[i + 1..];
    forall k | 0 <= k < |rest| ensures rest[k] != '}' {
      CloseIsFirst(t, i, i + 1 + k);
    }
  }

  lemma HoleNameClean(t: string, i: nat)
    requires i < |t| && AtHole(t, i)
    ensures '}' !in t[i + 1..Close(t, i)]
  {
    var name := t[i + 1..Close(t, i)];
    forall k | 0 <= k < |name| ensures name[k] != '}' {
      CloseIsFirst(t, i, i + 1 + k);
    }
  }

  lemma {:induction false} ScanCanonical(t: string, i: nat)
    requires i <= |t|
    ensures Canonical(Scan(t, i))
    decreases |t| - i
  {
    if i < |t| {
      if AtHole(t, i) {
        ScanCanonical(t, Close(t, i) + 1);
        HoleNameClean(t, i);
      } else {
        ScanCanonical(t, i + 1);
        UnparseScan(t, i + 1);
        if t[i] == '{' {
          NoCloseAfter(t, i);
        }
      }
    }
  }

  /** Two clean names in front of the first `}` are the same name. */
  lemma SameName(n: string, a: string, m: string, b: string)
    requires '}' !in n && '}' !in m && "{" + n + "}" + a == "{" + m + "}" + b
    ensures n == m && a == b
  {
    var s := "{" + n + "}" + a;
    assert s[|n| + 1] == '}' && s[|m| + 1] == '}';
    assert forall k :: 0 <= k < |n| ==> s[k + 1] == n[k];
    assert forall k :: 0 <= k < |m| ==> s[k + 1] == m[k];
    assert |n| == |m|;
    assert n == s[1..|n| + 1] == m;
    assert a == s[|n| + 2..] == b;
  }

  lemma HoleHasClose(rest: string, name: string, after: string)
    requires ['{'] + rest == "{" + name + "}" + after
    ensures '}' in rest
  {
    var s := "{" + name + "}" + after;
    assert s[|name| + 1] == '}';
    assert rest[|name|] == s[|name| + 1];
  }

  lemma EmptyUnparse(ps: Pieces)
    ensures Unparse(ps) == "" <==> ps.End?
  {
  }

  /** There is only one such reading of a text. */
  lemma {:induction false} CanonicalUnique(a: Pieces, b: Pieces)
    requires Canonical(a) && Canonical(b) && Unparse(a) == Unparse(b)
    ensures a == b
  {
    EmptyUnparse(a);
    EmptyUnparse(b);
    if a.Next? && b.Next? {
      var s := Unparse(a);
      if a.head.Hole? && b.head.Hole? {
        SameName(a.head.name, Unparse(a.rest), b.head.name, Unparse(b.rest));
        CanonicalUnique(a.rest, b.rest);
      } else if a.head.Lit? && b.head.Lit? {
        assert s[0] == a.head.c && s[0] == b.head.c && s[1..] == Unparse(a.rest) && s[1..] == Unparse(b.rest);
        CanonicalUnique(a.rest, b.rest);
      } else if a.head.Lit? {
        assert s[0] == a.head.c && s[0] == '{';
        HoleHasClose(Unparse(a.rest), b.head.name, Unparse(b.rest));
      } else {
        assert s[0] == b.head.c && s[0] == '{';
        HoleHasClose(Unparse(b.rest), a.head.name, Unparse(a.rest));
      }
    }
  }

  /** The scan of a template is its one canonical reading. */
  lemma ScanIsTheReading(t: string, ps: Pieces)
    ensures ps == Scan(t, 0) <==> Canonical(ps) && Unparse(ps) == t
  {
    ScanCanonical(t, 0);
    UnparseScan(t, 0);
    assert t[0..] == t;
    if Canonical(ps) && Unparse(ps) == t {
      CanonicalUnique(ps, Scan(t, 0));
    }
  }

  // ---- Substitution -------------------------------------------------------

  /** The first parameter of that name wins. */
  function Lookup(params: seq<Param>, name: string): Option<string> {
    if params == [] then None
    else if params[0].name == name then Some(params[0].text)
    else Lookup(params[1..], name)
  }

  function RenderOne(p: Piece, params: seq<Param>): string {
    match p
    case Lit(c) => [c]
    case Hole(name) => var v := Lookup(params, name); if v.Some? then v.value else Source(p)
  }

  /** One-pass substitution: inserted text is not scanned again. */
  function Render(ps: Pieces, params: seq<Param>): string {
    match ps case End => "" case Next(p, rest) => RenderOne(p, params) + Render(rest, params)
  }

  function Expand(t: string, params: seq<Param>): string {
    Render(Scan(t, 0), params)
  }

  /** Parameter `i` is the first one of that name. */
  ghost predicate FirstNamed(params: seq<Param>, name: string, i: int) {
    0 <= i < |params| && params[i].name == name && forall j :: 0 <= j < i ==> params[j].name != name
  }

  ghost predicate NoneNamed(params: seq<Param>, name: string) {
    forall i :: 0 <= i < |params| ==> params[i].name != name
  }

  lemma {:induction false} LookupFirst(params: seq<Param>, name: string)
    ensures Lookup(params, name).None? <==> NoneNamed(params, name)
    ensures forall i :: FirstNamed(params, name, i) ==> Lookup(params, name) == Some(params[i].text)
    ensures Lookup(params, name).Some? ==> exists i :: FirstNamed(params, name, i)
  {
    if params != [] {
      var rest := params[1..];
      LookupFirst(rest, name);
      if params[0].name == name {
        assert FirstNamed(params, name, 0);
      } else {
        forall i | FirstNamed(params, name, i) ensures i > 0 && FirstNamed(rest, name, i - 1) {
          assert forall j :: 0 <= j < i - 1 ==> rest[j] == params[j + 1];
        }
        if Lookup(rest, name).Some? {
          var i :| FirstNamed(rest, name, i);
          assert forall j :: 1 <= j < i + 1 ==> params[j] == rest[j - 1];
          assert FirstNamed(params, name, i + 1);
        } else {
          assert forall j :: 1 <= j < |params| ==> params[j] == rest[j - 1];
        }
      }
    }
  }

  function List(ps: Pieces): seq<Piece> {
    match ps case End => [] case Next(p, rest) => [p] + List(rest)
  }

  function Concat(texts: seq<string>): string {
    if texts == [] then "" else texts[0] + Concat(texts[1..])
  }

  /**
   * A literal stands for itself; a placeholder for the text of the first
   * parameter of its name, or for itself if there is none.
   */
  ghost predicate StandsFor(p: Piece, params: seq<Param>, text: string) {
    match p
    case Lit(c) => text == [c]
    case Hole(name) =>
      && (forall i :: FirstNamed(params, name, i) ==> text == params[i].text)
      && (NoneNamed(params, name) ==> text == "{" + name + "}")
  }

  lemma RenderOneStands(p: Piece, params: seq<Param>)
    ensures StandsFor(p, params, RenderOne(p, params))
  {
    if p.Hole? {
      LookupFirst(params, p.name);
    }
  }

  ghost predicate AllStand(pieces: seq<Piece>, params: seq<Param>, texts: seq<string>) {
    |texts| == |pieces| && forall i :: 0 <= i < |texts| ==> StandsFor(pieces[i], params, texts[i])
  }

  lemma AllStandCons(p: Piece, pieces: seq<Piece>, params: seq<Param>, text: string, texts: seq<string>)
    requires StandsFor(p, params, text) && AllStand(pieces, params, texts)
    ensures AllStand([p] + pieces, params, [text] + texts)
  {
  }

  lemma ConcatCons(text: string, texts: seq<string>)
    ensures Concat([text] + texts) == text + Concat(texts)
  {
    assert ([text] + texts)[1..] == texts;
  }

  /** One-pass substitution is the texts the pieces stand for, one after the other. */
  lemma {:induction false} RenderTexts(ps: Pieces, params: seq<Param>) returns (texts: seq<string>)
    ensures AllStand(List(ps), params, texts) && Render(ps, params) == Concat(texts)
  {
    match ps
    case End => texts := [];
    case Next(p, rest) =>
      var more := RenderTexts(rest, params);
      var text := RenderOne(p, params);
      RenderOneStands(p, params);
      AllStandCons(p, List(rest), params, text, more);
      ConcatCons(text, more);
      texts := [text] + more;
  }

  // ---- The bounded form ---------------------------------------------------

  /** What fits into `room` characters: a placeholder that does not fit is skipped. */
  function Fill(ps: Pieces, params: seq<Param>, room: nat): (w: string)
    ensures |w| <= room
  {
    if ps.End? || room == 0 then []
    else
      var chunk := RenderOne(ps.head, params);
      if |chunk| <= room then chunk + Fill(ps.rest, params, room - |chunk|)
      else Fill(ps.rest, params, room)
  }

  /** How much of the first `n` texts is written. */
  function Written(texts: seq<string>, kept: seq<bool>, n: nat): nat
    requires n <= |texts| == |kept|
  {
    if n == 0 then 0 else Written(texts, kept, n - 1) + if kept[n - 1] then |texts[n - 1]| else 0
  }

  function Selected(texts: seq<string>, kept: seq<bool>): string
    requires |texts| == |kept|
  {
    if texts == [] then ""
    else (if kept[0] then texts[0] else "") + Selected(texts[1..], kept[1..])
  }

  ghost predicate FitsAt(texts: seq<string>, kept: seq<bool>, room: nat, i: nat)
    requires i < |texts| == |kept|
  {
    kept[i] <==> Written(texts, kept, i) < room && Written(texts, kept, i) + |texts[i]| <= room
  }

  /** A text is written exactly when there is room at all and it fits into what is left. */
  ghost predicate Greedy(texts: seq<string>, kept: seq<bool>, room: nat) {
    |kept| == |texts| && forall i :: 0 <= i < |texts| ==> FitsAt(texts, kept, room, i)
  }

  lemma {:induction false} WrittenCons(text: string, texts: seq<string>, k: bool, kept: seq<bool>, n: nat)
    requires n <= |texts| == |kept|
    ensures Written([text] + texts, [k] + kept, n + 1) == (if k then |text| else 0) + Written(texts, kept, n)
  {
    if n > 0 {
      WrittenCons(text, texts, k, kept, n - 1);
    }
  }

  lemma FitsLater(text: string, texts: seq<string>, k: bool, kept: seq<bool>, room: nat, left: nat, i: nat)
    requires i < |texts| == |kept| && FitsAt(texts, kept, left, i)
    requires left + (if k then |text| else 0) == room
    ensures FitsAt([text] + texts, [k] + kept, room, i + 1)
  {
    WrittenCons(text, texts, k, kept, i);
    assert ([text] + texts)[i + 1] == texts[i] && ([k] + kept)[i + 1] == kept[i];
  }

  lemma GreedyCons(text: string, texts: seq<string>, k: bool, kept: seq<bool>, room: nat, left: nat)
    requires k <==> 0 < room && |text| <= room
    requires left == (if k then room - |text| else room) && Greedy(texts, kept, left)
    ensures Greedy([text] + texts, [k] + kept, room)
  {
    forall i | 0 <= i < |texts| + 1 ensures FitsAt([text] + texts, [k] + kept, room, i) {
      if i > 0 {
        FitsLater(text, texts, k, kept, room, left, i - 1);
      }
    }
  }

  lemma SelectedCons(text: string, texts: seq<string>, k: bool, kept: seq<bool>)
    requires |texts| == |kept|
    ensures Selected([text] + texts, [k] + kept) == (if k then text else "") + Selected(texts, kept)
  {
    assert ([text] + texts)[1..] == texts && ([k] + kept)[1..] == kept;
  }

  lemma {:induction false} NothingFits(texts: seq<string>) returns (kept: seq<bool>)
    ensures Greedy(texts, kept, 0) && Selected(texts, kept) == ""
  {
    if texts == [] {
      kept := [];
    } else {
      var more := NothingFits(texts[1..]);
      assert texts == [texts[0]] + texts[1..];
      GreedyCons(texts[0], texts[1..], false, more, 0, 0);
      SelectedCons(texts[0], texts[1..], false, more);
      kept := [false] + more;
    }
  }

  lemma FillCons(ps: Pieces, params: seq<Param>, room: nat, texts: seq<string>, kept: seq<bool>)
    requires ps.Next? && room > 0
    requires
      var text := RenderOne(ps.head, params);
      var left := if |text| <= room then room - |text| else room;
      AllStand(List(ps.rest), params, texts) && Greedy(texts, kept, left) && Fill(ps.rest, params, left) == Selected(texts, kept)
    ensures
      var text := RenderOne(ps.head, params);
      var k := |text| <= room;
      && AllStand(List(ps), params, [text] + texts) && Greedy([text] + texts, [k] + kept, room)
      && Fill(ps, params, room) == Selected([text] + texts, [k] + kept)
  {
    var text := RenderOne(ps.head, params);
    var k := |text| <= room;
    RenderOneStands(ps.head, params);
    AllStandCons(ps.head, List(ps.rest), params, text, texts);
    GreedyCons(text, texts, k, kept, room, if k then room - |text| else room);
    SelectedCons(text, texts, k, kept);
  }

  /**
   * The bounded form writes the texts the pieces stand for, in order, leaving
   * out exactly those that do not fit into the room left.
   */
  lemma {:induction false} FillGreedy(ps: Pieces, params: seq<Param>, room: nat) returns (texts: seq<string>, kept: seq<bool>)
    ensures AllStand(List(ps), params, texts) && Greedy(texts, kept, room)
    ensures Fill(ps, params, room) == Selected(texts, kept)
  {
    if ps.End? {
      texts, kept := [], [];
    } else if room == 0 {
      texts := RenderTexts(ps, params);
      kept := NothingFits(texts);
    } else {
      var text := RenderOne(ps.head, params);
      var k := |text| <= room;
      var left := if k then room - |text| else room;
      var more, flags := FillGreedy(ps.rest, params, left);
      FillCons(ps, params, room, more, flags);
      texts, kept := [text] + more, [k] + flags;
    }
  }

  /** The bounded form is the pure form exactly when the latter fits. */
  lemma {:induction false} FillIsRender(ps: Pieces, params: seq<Param>, room: nat)
    ensures Fill(ps, params, room) == Render(ps, params) <==> |Render(ps, params)| <= room
  {
    var w := Render(ps, params);
    if |w| <= room && ps.Next? {
      var chunk := RenderOne(ps.head, params);
      assert |w| == |chunk| + |Render(ps.rest, params)|;
      if room == 0 {
        assert w == [];
      } else {
        FillIsRender(ps.rest, params, room - |chunk|);
      }
    }
  }

  // ---- The two scanners ---------------------------------------------------

  /** The non-empty names the plugin looks up, in order. */
  function LookedUp(ps: Pieces): seq<string> {
    match ps
    case End => []
    case Next(p, rest) => if p.Hole? && p.name != "" then [p.name] + LookedUp(rest) else LookedUp(rest)
  }

  /** `t[p..e + 1]` matches the regular expression `\{([^}]+)\}`. */
  ghost predicate IsMatch(t: string, p: nat, e: nat) {
    && p + 1 < e < |t|
    && t[p] == '{' && t[e] == '}'
    && forall k :: p < k < e ==> t[k] != '}'
  }

  /** The leftmost match starting at or after `i`. */
  function FindMatch(t: string, i: nat): (m: Option<(nat, nat)>)
    ensures m.Some? ==> i <= m.value.0 < m.value.1 < |t|
    decreases |t| - i
  {
    if i >= |t| then None
    else if AtHole(t, i) && i + 1 < Close(t, i) then Some((i, Close(t, i)))
    else FindMatch(t, i + 1)
  }

  lemma {:induction false} FindMatchIsLeftmost(t: string, i: nat)
    ensures
      var m := FindMatch(t, i);
      && (m.Some? ==> IsMatch(t, m.value.0, m.value.1))
      && forall p, e :: i <= p && IsMatch(t, p, e) ==>
           m.Some? && m.value.0 <= p && (m.value.0 == p ==> m.value.1 == e)
    decreases |t| - i
  {
    if i < |t| {
      FindMatchIsLeftmost(t, i + 1);
      forall e: nat | IsMatch(t, i, e) ensures AtHole(t, i) && Close(t, i) == e {
        CloseIsFirst(t, i, e);
      }
      forall k | i <= k < Close(t, i) ensures t[k] != '}' {
        CloseIsFirst(t, i, k);
      }
    }
  }

  /** The names collected by iterating the expression over the template. */
  function RegexNames(t: string, i: nat): seq<string>
    decreases |t| - i
  {
    var m := FindMatch(t, i);
    if m.None? then [] else [t[m.value.0 + 1..m.value.1]] + RegexNames(t, m.value.1 + 1)
  }

  lemma MatchHere(t: string, i: nat)
    requires i < |t| && AtHole(t, i) && i + 1 < Close(t, i)
    ensures RegexNames(t, i) == [t[i + 1..Close(t, i)]] + RegexNames(t, Close(t, i) + 1)
  {
  }

  lemma NoMatchHere(t: string, i: nat)
    requires i < |t| && !(AtHole(t, i) && i + 1 < Close(t, i))
    ensures RegexNames(t, i) == RegexNames(t, i + 1)
  {
  }

  /**
   * The validator collects exactly the non-empty names the plugin looks up, in
   * the same order.
   */
  lemma {:induction false} ScannersAgree(t: string, i: nat)
    ensures RegexNames(t, i) == LookedUp(Scan(t, i))
    decreases |t| - i
  {
    if i < |t| {
      if AtHole(t, i) {
        ScannersAgree(t, Close(t, i) + 1);
        SameAtHole(t, i);
      } else {
        NoMatchHere(t, i);
        ScannersAgree(t, i + 1);
      }
    }
  }

  lemma SameAtHole(t: string, i: nat)
    requires i < |t| && AtHole(t, i)
    requires RegexNames(t, Close(t, i) + 1) == LookedUp(Scan(t, Close(t, i) + 1))
    ensures RegexNames(t, i) == LookedUp(Scan(t, i))
  {
    var e := Close(t, i);
    var name := t[i + 1..e];
    var rest := Scan(t, e + 1);
    assert Scan(t, i) == Next(Hole(name), rest);
    if e == i + 1 {
      NoMatchHere(t, i);
      NoMatchHere(t, i + 1);
    } else {
      MatchHere(t, i);
    }
  }

  // ---- Validation ---------------------------------------------------------

  datatype Complaint = UnknownPlaceholder(name: string) | MissingGroup(group: string)

  ghost predicate Accepted(t: string, allowed: set<string>, group: string) {
    && (forall n :: n in RegexNames(t, 0) ==> n in allowed)
    && (group != "" ==> group in RegexNames(t, 0))
  }

  lemma NextName(t: string, i: nat, found: seq<string>)
    requires FindMatch(t, i).Some?
    ensures
      var m := FindMatch(t, i).value;
      found + RegexNames(t, i) == found + [t[m.0 + 1..m.1]] + RegexNames(t, m.1 + 1)
  {
    var m := FindMatch(t, i).value;
    Sequences.Regroup(found, [t[m.0 + 1..m.1]], RegexNames(t, m.1 + 1));
  }

  /** The names found so far that are not allowed, as complaints. */
  ghost predicate Complains(errors: seq<Complaint>, found: seq<string>, allowed: set<string>) {
    forall e :: e in errors <==> e.UnknownPlaceholder? && e.name in found && e.name !in allowed
  }

  lemma ComplainsNone(errors: seq<Complaint>, found: seq<string>, allowed: set<string>)
    requires Complains(errors, found, allowed)
    ensures errors == [] <==> forall n :: n in found ==> n in allowed
  {
    if errors == [] {
      forall n | n in found ensures n in allowed {
        assert n !in allowed ==> UnknownPlaceholder(n) in errors;
      }
    } else {
      assert errors[0] in errors;
    }
  }

  /** The loop of the template part of `validate_instrument_api` over the matches. */
  method CheckNames(t: string, allowed: set<string>) returns (errors: seq<Complaint>, found: seq<string>)
    ensures found == RegexNames(t, 0) && Complains(errors, found, allowed)
  {
    errors, found := [], [];
    var i := 0;
    while true
      invariant found + RegexNames(t, i) == RegexNames(t, 0)
      invariant Complains(errors, found, allowed)
      decreases |t| - i
    {
      var m := FindMatch(t, i);
      if m.None? {
        break;
      }
      var name := t[m.value.0 + 1..m.value.1];
      NextName(t, i, found);
      found := found + [name];
      if name !in allowed {
        errors := errors + [UnknownPlaceholder(name)];
      }
      i := m.value.1 + 1;
    }
  }

  /** The template part of `validate_instrument_api`. */
  method ValidateTemplate(t: string, allowed: set<string>, group: string) returns (errors: seq<Complaint>)
    ensures errors == [] <==> Accepted(t, allowed, group)
    ensures forall n :: UnknownPlaceholder(n) in errors <==> n in RegexNames(t, 0) && n !in allowed
    ensures forall n :: MissingGroup(n) in errors <==> n == group != "" && group !in RegexNames(t, 0)
  {
    var found;
    errors, found := CheckNames(t, allowed);
    ComplainsNone(errors, found, allowed);
    if group != "" && group !in found {
      errors := errors + [MissingGroup(group)];
    }
  }

  /** Every non-empty placeholder is replaced by the value of its first parameter. */
  ghost predicate Replaced(pieces: seq<Piece>, params: seq<Param>, texts: seq<string>) {
    && |texts| == |pieces|
    && forall i :: 0 <= i < |pieces| && pieces[i].Hole? && pieces[i].name != "" ==>
         exists k :: FirstNamed(params, pieces[i].name, k) && texts[i] == params[k].text
  }

  lemma {:induction false} LookedUpHas(ps: Pieces, i: nat)
    requires i < |List(ps)| && List(ps)[i].Hole? && List(ps)[i].name != ""
    ensures List(ps)[i].name in LookedUp(ps)
  {
    if i == 0 {
      assert LookedUp(ps)[0] == ps.head.name;
    } else {
      LookedUpHas(ps.rest, i - 1);
      assert List(ps)[i] == List(ps.rest)[i - 1];
      assert forall n :: n in LookedUp(ps.rest) ==> n in LookedUp(ps);
    }
  }

  lemma ValuesForAll(ps: Pieces, params: seq<Param>, texts: seq<string>)
    requires AllStand(List(ps), params, texts)
    requires forall n :: n in LookedUp(ps) ==> !NoneNamed(params, n)
    ensures Replaced(List(ps), params, texts)
  {
    var pieces := List(ps);
    forall i | 0 <= i < |pieces| && pieces[i].Hole? && pieces[i].name != ""
      ensures exists k :: FirstNamed(params, pieces[i].name, k) && texts[i] == params[k].text
    {
      LookedUpHas(ps, i);
      LookupFirst(params, pieces[i].name);
      var k :| FirstNamed(params, pieces[i].name, k);
      assert StandsFor(pieces[i], params, texts[i]);
    }
  }

  /**
   * An accepted template, given a value for every allowed name and enough room,
   * is expanded completely: the output is the texts of its pieces, and every
   * non-empty placeholder is replaced by its value.
   */
  lemma AcceptedIsFullyExpanded(t: string, allowed: set<string>, group: string, params: seq<Param>, room: nat)
    returns (texts: seq<string>)
    requires Accepted(t, allowed, group)
    requires forall n :: n in allowed ==> !NoneNamed(params, n)
    requires |Expand(t, params)| <= room
    ensures AllStand(List(Scan(t, 0)), params, texts) && Fill(Scan(t, 0), params, room) == Concat(texts)
    ensures Replaced(List(Scan(t, 0)), params, texts)
  {
    texts := RenderTexts(Scan(t, 0), params);
    FillIsRender(Scan(t, 0), params, room);
    ScannersAgree(t, 0);
    ValuesForAll(Scan(t, 0), params, texts);
  }

  // ---- The procedure ------------------------------------------------------

  /** Writes the characters of `s` at `at` (`strncpy` of exactly that many). */
  method Copy(s: string, a: array<char>, at: nat)
    requires at + |s| <= a.Length
    modifies a
    ensures a[..at] == old(a[..at]) && a[at..at + |s|] == s
  {
    for i := 0 to |s|
      invariant a[..at] == old(a[..at]) && a[at..at + i] == s[..i]
    {
      a[at + i] := s[i];
      assert a[at..at + i + 1] == a[at..at + i] + [s[i]];
      assert s[..i + 1] == s[..i] + [s[i]];
    }
    assert s[..|s|] == s;
  }

  /** `strcpy`: the characters of `s` and the terminator behind them. */
  method CopyString(s: string, a: array<char>, at: nat)
    requires at + |s| < a.Length
    modifies a
    ensures a[..at] == old(a[..at]) && a[at..at + |s|] == s && a[at + |s|] == '\0'
  {
    Copy(s, a, at);
    a[at + |s|] := '\0';
    assert a[at..at + |s|] == s;
  }

  /** Every placeholder name from `i` on fits the local name buffer. */
  predicate NamesFit(t: string, i: nat)
    decreases |t| - i
  {
    if i >= |t| then true
    else if AtHole(t, i) then Close(t, i) - i - 1 < PLUGIN_MAX_STRING_LEN && NamesFit(t, Close(t, i) + 1)
    else NamesFit(t, i + 1)
  }

  /** Templates of up to 127 characters qualify. */
  lemma {:induction false} ShortTemplatesFit(t: string, i: nat)
    requires |t| <= 127
    ensures NamesFit(t, i)
    decreases |t| - i
  {
    if i < |t| {
      ShortTemplatesFit(t, if AtHole(t, i) then Close(t, i) + 1 else i + 1);
    }
  }

  /** Every value leaves the local value buffer terminated. */
  predicate ValuesFit(params: seq<Param>) {
    forall i :: 0 <= i < |params| ==>
      |params[i].text| < if params[i].isString then PLUGIN_MAX_STRING_LEN - 1 else PLUGIN_MAX_STRING_LEN
  }

  method FindParam(params: seq<Param>, name: string) returns (v: Option<string>)
    requires ValuesFit(params)
    ensures v == Lookup(params, name)
  {
    var valueStr := new char[PLUGIN_MAX_STRING_LEN];
    assert params[0..] == params;
    for i := 0 to |params|
      invariant Lookup(params, name) == Lookup(params[i..], name)
    {
      assert params[i..][1..] == params[i + 1..];
      if params[i].name == name {
        var valueLen := |params[i].text|;
        CopyString(params[i].text, valueStr, 0);
        assert valueStr[..valueLen] == params[i].text;
        return Some(valueStr[..valueLen]);
      }
    }
    v := None;
  }

  /** The text a placeholder is replaced by, or the placeholder itself. */
  method ReplaceHole(t: string, src: nat, end: nat, params: seq<Param>) returns (chunk: string, found: bool)
    requires src < end < |t| && t[src] == '{' && t[end] == '}'
    requires end - src - 1 < PLUGIN_MAX_STRING_LEN && ValuesFit(params)
    ensures chunk == RenderOne(Hole(t[src + 1..end]), params)
    ensures found == Lookup(params, t[src + 1..end]).Some?
  {
    var paramLen := end - src - 1;
    var paramName := new char[PLUGIN_MAX_STRING_LEN];
    CopyString(t[src + 1..end], paramName, 0);
    assert paramName[..paramLen] == t[src + 1..end];
    var value := FindParam(params, paramName[..paramLen]);
    if value.Some? {
      return value.value, true;
    }
    chunk, found := t[src..end + 1], false;
    assert chunk == "{" + t[src + 1..end] + "}";
  }

  /**
   * `substitute_template`: the output is the bounded expansion, terminated, and
   * nothing is written outside the buffer.
   */
  method SubstituteTemplate(t: string, params: seq<Param>, output: array<char>)
    requires output.Length >= 1 && NamesFit(t, 0) && ValuesFit(params)
    modifies output
    ensures
      var w := Fill(Scan(t, 0), params, output.Length - 1);
      output[..|w|] == w && output[|w|] == '\0'
  {
    var dst := CopyAndReplace(t, params, output);
    ghost var w := Fill(Scan(t, 0), params, output.Length - 1);
    assert |w| == dst;
    output[dst] := '\0';
    assert output[..dst] == w;
  }

  /** The loop; `dst` is the number of characters written. */
  method CopyAndReplace(t: string, params: seq<Param>, output: array<char>) returns (dst: nat)
    requires output.Length >= 1 && NamesFit(t, 0) && ValuesFit(params)
    modifies output
    ensures dst < output.Length && output[..dst] == Fill(Scan(t, 0), params, output.Length - 1)
  {
    var src: nat := 0;
    var remaining: nat := output.Length - 1;
    ghost var whole := Fill(Scan(t, 0), params, remaining);
    dst := 0;
    while src < |t| && remaining > 0
      invariant dst + remaining == output.Length - 1 && NamesFit(t, src)
      invariant output[..dst] + Fill(Scan(t, src), params, remaining) == whole
      decreases |t| - src
    {
      src, dst, remaining := Turn(t, params, output, src, dst, remaining);
    }
    assert Fill(Scan(t, src), params, remaining) == [];
  }

  /** One turn of the loop: a placeholder or a character. */
  method Turn(t: string, params: seq<Param>, output: array<char>, src: nat, dst: nat, remaining: nat)
    returns (src': nat, dst': nat, remaining': nat)
    requires src < |t| && remaining > 0 && dst + remaining < output.Length
    requires NamesFit(t, src) && ValuesFit(params)
    modifies output
    ensures src < src' <= |t| && dst' + remaining' == dst + remaining && NamesFit(t, src')
    ensures output[..dst'] + Fill(Scan(t, src'), params, remaining')
         == old(output[..dst]) + Fill(Scan(t, src), params, remaining)
  {
    var end := Close(t, src);
    if t[src] == '{' && end < |t| {
      var chunk, found := ReplaceHole(t, src, end, params);
      src' := end + 1;
      assert Scan(t, src) == Next(Hole(t[src + 1..end]), Scan(t, src'));
      dst', remaining' := Put(Hole(t[src + 1..end]), Scan(t, src'), params, chunk, found, output, dst, remaining);
    } else {
      src' := src + 1;
      assert Scan(t, src) == Next(Lit(t[src]), Scan(t, src'));
      dst', remaining' := Put(Lit(t[src]), Scan(t, src'), params, [t[src]], false, output, dst, remaining);
    }
  }

  /** Writes the text of a piece if there is room, and skips it otherwise; a value comes with a terminator. */
  method Put(ghost p: Piece, ghost rest: Pieces, ghost params: seq<Param>,
             chunk: string, isValue: bool, output: array<char>, dst: nat, remaining: nat)
    returns (dst': nat, remaining': nat)
    requires chunk == RenderOne(p, params) && remaining > 0 && dst + remaining < output.Length
    modifies output
    ensures dst' + remaining' == dst + remaining
    ensures output[..dst'] + Fill(rest, params, remaining')
         == old(output[..dst]) + Fill(Next(p, rest), params, remaining)
  {
    dst', remaining' := dst, remaining;
    if |chunk| <= remaining {
      if isValue {
        CopyString(chunk, output, dst);
      } else {
        Copy(chunk, output, dst);
      }
      dst', remaining' := dst + |chunk|, remaining - |chunk|;
      assert output[..dst'] == old(output[..dst]) + chunk;
      Sequences.Regroup(old(output[..dst]), chunk, Fill(rest, params, remaining'));
    }
  }
}
