/** `legacy/Recipe.py`: a recipe turns source items into exactly one kind of
    destination item, optionally "via" some machine, and is read from a line
    such as `2 iron + 1 coal -(furnace)-> 1 steel`. */
module LegacyRecipe {

  import opened Common
  import opened Numbers
  import opened LegacyItems
  import Text
  import Seqs

  /** A recipe. Its identity is the object: `cmpkey` compares the two `Items`
      objects a recipe holds by identity, and every parsed recipe owns fresh
      ones, so two recipes are equal exactly when they are the same object. */
  class Recipe {
    const src: Entries
    const dest: Entries
    const via: Option<string>

    /** What every recipe satisfies: well-formed sides and a single kind of
        destination item. */
    predicate Valid()
    {
      WellFormed(src) && WellFormed(dest) && |dest| == 1
    }

    /** `dest.item`: the one destination item. */
    function DestItem(): Item
      requires |dest| == 1
    {
      dest[0].0
    }

    /** The sides come from `Items` objects, which are always well-formed. */
    constructor(src: Entries, dest: Entries, via: Option<string>)
      requires WellFormed(src) && WellFormed(dest) && |dest| == 1
      ensures this.src == src && this.dest == dest && this.via == via && Valid()
    {
      this.src := src;
      this.dest := dest;
      this.via := via;
    }
  }

  /** The constructor with its check: a recipe must have exactly one
      destination entry, otherwise the assertion fails. */
  method Create(src: Entries, dest: Entries, via: Option<string>) returns (r: Result<Recipe>)
    requires WellFormed(src) && WellFormed(dest)
    ensures r.Ok? <==> |dest| == 1
    ensures r.Err? ==> r.error == AssertionFailed
    ensures r.Ok? ==> fresh(r.value) && r.value.src == src && r.value.dest == dest && r.value.via == via && r.value.Valid()
  {
    if |dest| != 1 {
      return Err(AssertionFailed);
    }
    var recipe := new Recipe(src, dest, via);
    return Ok(recipe);
  }

  // ---------------------------------------------------------------------
  // One side of a recipe line: `<int> <name> + <int> <name> + ...`

  /** One `+`-separated term: stripped, split at its first blank into the
      cardinality and the name. The cardinality is converted first, so a term
      without a blank fails with `ValueError` unless it is a bare integer,
      which fails with `IndexError` for the missing name. */
  function Term(piece: string): Result<(int, string)>
  {
    SplitTerm(Text.Strip(piece))
  }

  /** A stripped term split at its first blank. */
  function SplitTerm(t: string): Result<(int, string)>
  {
    match Text.IndexOf(t, ' ')
    case None =>
      var n := ParseInt(t);
      if n.Err? then Err(n.error) else Err(IndexError)
    case Some(i) =>
      var n := ParseInt(t[..i]);
      if n.Err? then Err(n.error) else Ok((n.value, t[i + 1..]))
  }

  /** The pieces, each parsed, in order; or the error of the first piece that
      fails to parse. */
  function Collected<T>(pieces: seq<string>, parse: string -> Result<T>): Result<seq<T>>
  {
    if pieces == [] then Ok([])
    else
      var init := Collected(pieces[..|pieces| - 1], parse);
      if init.Err? then init
      else
        var last := parse(pieces[|pieces| - 1]);
        if last.Err? then Err(last.error) else Ok(init.value + [last.value])
  }

  /** The terms of a side in order, or the error of the first bad one. */
  function Terms(pieces: seq<string>): Result<seq<(int, string)>>
  {
    Collected(pieces, Term)
  }

  /** The `Items` a list of terms builds by adding them one by one. */
  function Accumulate(terms: seq<(int, string)>): Entries
  {
    if terms == [] then []
    else
      var t := terms[|terms| - 1];
      AddTo(Accumulate(terms[..|terms| - 1]), t.0 as real, Item(t.1))
  }

  /** The sum of the cardinalities of the terms naming the same item as `y`. */
  function TermsTotal(terms: seq<(int, string)>, y: Item): real
  {
    if terms == [] then 0.0
    else
      var t := terms[|terms| - 1];
      TermsTotal(terms[..|terms| - 1], y) + (if Key(Item(t.1)) == Key(y) then t.0 as real else 0.0)
  }

  /** `_parse_side`. */
  function ParsedSide(side: string): Result<Entries>
  {
    var terms := Terms(Text.Split(side, '+'));
    if terms.Err? then Err(terms.error) else Ok(Accumulate(terms.value))
  }

  /** Repeated items on a side accumulate: each item's count is the sum of
      the cardinalities written for it, and an item whose cardinalities sum
      to zero has no entry at all. */
  lemma {:induction false} AccumulateCount(terms: seq<(int, string)>, y: Item)
    ensures WellFormed(Accumulate(terms))
    ensures Count(Accumulate(terms), y) == TermsTotal(terms, y)
  {
    if terms != [] {
      var init := terms[..|terms| - 1];
      var t := terms[|terms| - 1];
      AccumulateCount(init, y);
      AddToWellFormed(Accumulate(init), t.0 as real, Item(t.1));
      AddToCount(Accumulate(init), t.0 as real, Item(t.1), y);
    }
  }

  /** An item with no entry on a parsed side has a zero total. */
  lemma AbsentMeansZero(terms: seq<(int, string)>, y: Item)
    requires TermsTotal(terms, y) == 0.0
    ensures Key(y) !in Keys(Accumulate(terms))
  {
    AccumulateCount(terms, y);
    var es := Accumulate(terms);
    if Key(y) in Keys(es) {
      var i :| 0 <= i < |es| && Keys(es)[i] == Key(y);
      CountAt(es, i, y);
    }
  }

  /** A term without a blank fails: `IndexError` when it is a bare integer,
      `ValueError` otherwise. */
  lemma TermWithoutBlank(piece: string)
    requires ' ' !in Text.Strip(piece)
    ensures Term(piece).Err?
    ensures Term(piece).error == (if IsIntLiteral(Text.Strip(piece)) then IndexError else ValueError(Text.Strip(piece)))
  {
    StripUnchanged(Text.Strip(piece));
  }

  /** The text of one term, as it would be written in a recipe file. */
  function TermText(n: int, name: string): string
  {
    IntText(n) + " " + name
  }

  predicate NameFits(name: string)
  {
    name != [] && !Text.IsWhitespace(name[|name| - 1]) && '+' !in name
  }

  /** A written term reads back as its cardinality and name. */
  lemma TermRoundTrip(n: int, name: string)
    requires NameFits(name)
    ensures Text.Strip(TermText(n, name)) == TermText(n, name)
    ensures SplitTerm(TermText(n, name)) == Ok((n, name))
  {
    var s := TermText(n, name);
    var k := |IntText(n)|;
    assert s[0] == IntText(n)[0] && s[|s| - 1] == name[|name| - 1];
    StripUnchanged(s);
    IntTextChars(n);
    Text.IndexOfFirst(IntText(n), ' ', name);
    assert s[..k] == IntText(n) && s[k + 1..] == name;
    IntTextRoundTrip(n);
  }

  lemma IntTextChars(n: int)
    ensures ' ' !in IntText(n) && '+' !in IntText(n)
  {
    var digits := Text.NatDigits(if n < 0 then -n else n);
    assert ' ' !in digits && '+' !in digits by {
      assert forall j :: 0 <= j < |digits| ==> Text.IsDigit(digits[j]);
    }
    if n < 0 {
      assert IntText(n) == "-" + digits;
    }
  }

  /** The pieces of a written side: each term padded by blanks, as `" + "`
      leaves it once the line is split at `+`. */
  function SideTexts(terms: seq<(int, string)>): (ps: seq<string>)
  {
    seq(|terms|, k requires 0 <= k < |terms| => PieceText(terms[k]))
  }

  /** One written term, padded by blanks as `" + "` leaves it: it holds no
      `+` and reads back as the term. */
  lemma PieceRoundTrip(t: (int, string))
    requires NameFits(t.1)
    ensures '+' !in PieceText(t) && Term(PieceText(t)) == Ok(t)
  {
    var text := TermText(t.0, t.1);
    IntTextChars(t.0);
    assert text[0] == IntText(t.0)[0] && text[|text| - 1] == t.1[|t.1| - 1];
    assert '+' !in text;
    PaddedTerm(text);
    TermRoundTrip(t.0, t.1);
  }

  /** A term padded by one blank on each side reads as the bare term. */
  lemma PaddedTerm(text: string)
    requires text != [] && !Text.IsWhitespace(text[0]) && !Text.IsWhitespace(text[|text| - 1])
    requires '+' !in text
    ensures '+' !in " " + text + " " && Term(" " + text + " ") == SplitTerm(text)
  {
    StripPadded(text);
  }

  function PieceText(t: (int, string)): string
  {
    " " + TermText(t.0, t.1) + " "
  }

  lemma SideTextsPieces(terms: seq<(int, string)>)
    requires forall k :: 0 <= k < |terms| ==> NameFits(terms[k].1)
    ensures forall k :: 0 <= k < |terms| ==> '+' !in SideTexts(terms)[k]
    ensures Terms(SideTexts(terms)) == Ok(terms)
  {
    var ps := SideTexts(terms);
    forall k | 0 <= k < |terms|
      ensures '+' !in ps[k] && Term(ps[k]) == Ok(terms[k])
    {
      PieceRoundTrip(terms[k]);
    }
    TermsAll(ps, terms);
  }

  /** Pieces that each read as a term read together as those terms. */
  lemma {:induction false} TermsAll(pieces: seq<string>, terms: seq<(int, string)>)
    requires |pieces| == |terms| && forall k :: 0 <= k < |pieces| ==> Term(pieces[k]) == Ok(terms[k])
    ensures Terms(pieces) == Ok(terms)
  {
    if pieces != [] {
      var n := |pieces| - 1;
      TermsAll(pieces[..n], terms[..n]);
      Seqs.FrontLast(terms);
    }
  }

  lemma StripPadded(s: string)
    requires s != [] && !Text.IsWhitespace(s[0]) && !Text.IsWhitespace(s[|s| - 1])
    ensures Text.Strip(" " + s + " ") == s
  {
    var p := " " + s + " ";
    assert Text.LeadingWhitespace(p) == 1 by {
      assert Text.LeadingWhitespace(p[1..]) == 0 by { assert p[1..][0] == s[0]; }
    }
    assert p[1..] == s + " ";
    assert Text.TrailingWhitespace(s + " ") == 1 by {
      assert (s + " ")[..|s|] == s;
    }
  }

  /** A side written from terms whose names fit reads back to the items those
      terms accumulate. */
  lemma SideRoundTrip(terms: seq<(int, string)>)
    requires |terms| >= 1 && forall k :: 0 <= k < |terms| ==> NameFits(terms[k].1)
    ensures ParsedSide(Text.Join(SideTexts(terms), '+')) == Ok(Accumulate(terms))
  {
    SideTextsPieces(terms);
    Text.SplitJoin(SideTexts(terms), '+');
  }

  /** The first piece that fails makes the prefix ending with it fail with
      its error. */
  lemma CollectedFailAt<T>(pieces: seq<string>, parse: string -> Result<T>, i: nat)
    requires i < |pieces| && Collected(pieces[..i], parse).Ok? && parse(pieces[i]).Err?
    ensures Collected(pieces[..i + 1], parse) == Err(parse(pieces[i]).error)
  {
    assert pieces[..i + 1][..i] == pieces[..i];
  }

  /** A failed prefix stays failed, with the same error, when it grows. */
  lemma CollectedErrKept<T>(pieces: seq<string>, parse: string -> Result<T>, j: nat)
    requires j < |pieces| && Collected(pieces[..j], parse).Err?
    ensures Collected(pieces[..j + 1], parse) == Collected(pieces[..j], parse)
  {
    assert pieces[..j + 1][..j] == pieces[..j];
  }

  /** A failed prefix decides the whole. */
  lemma CollectedErrFrom<T>(pieces: seq<string>, parse: string -> Result<T>, j: nat)
    requires j <= |pieces| && Collected(pieces[..j], parse).Err?
    ensures Collected(pieces, parse) == Collected(pieces[..j], parse)
    decreases |pieces| - j
  {
    if j < |pieces| {
      CollectedErrKept(pieces, parse, j);
      CollectedErrFrom(pieces, parse, j + 1);
    } else {
      assert pieces[..j] == pieces;
    }
  }

  /** Once a piece fails, the whole fails with that piece's error. */
  lemma CollectedFailFirst<T>(pieces: seq<string>, parse: string -> Result<T>, i: nat)
    requires i < |pieces| && Collected(pieces[..i], parse).Ok? && parse(pieces[i]).Err?
    ensures Collected(pieces, parse) == Err(parse(pieces[i]).error)
  {
    CollectedFailAt(pieces, parse, i);
    CollectedErrFrom(pieces, parse, i + 1);
  }

  /** One more piece that parses extends the parsed prefix. */
  lemma CollectedNext<T>(pieces: seq<string>, parse: string -> Result<T>, i: nat)
    requires i < |pieces| && Collected(pieces[..i], parse).Ok? && parse(pieces[i]).Ok?
    ensures Collected(pieces[..i + 1], parse) == Ok(Collected(pieces[..i], parse).value + [parse(pieces[i]).value])
  {
    assert pieces[..i + 1][..i] == pieces[..i];
  }

  /** One more term adds its cardinality to its item. */
  lemma AccumulateSnoc(prefix: seq<(int, string)>, t: (int, string))
    ensures Accumulate(prefix + [t]) == AddTo(Accumulate(prefix), t.0 as real, Item(t.1))
  {
    assert (prefix + [t])[..|prefix|] == prefix;
  }

  /** One more good term extends the parsed prefix and adds to its items. */
  lemma TermsStep(pieces: seq<string>, i: nat)
    requires i < |pieces| && Terms(pieces[..i]).Ok? && Term(pieces[i]).Ok?
    ensures Terms(pieces[..i + 1]).Ok?
    ensures Accumulate(Terms(pieces[..i + 1]).value)
         == AddTo(Accumulate(Terms(pieces[..i]).value), Term(pieces[i]).value.0 as real, Item(Term(pieces[i]).value.1))
  {
    CollectedNext(pieces, Term, i);
    AccumulateSnoc(Terms(pieces[..i]).value, Term(pieces[i]).value);
  }

  /** `_parse_side`: a fresh `Items` holding the side's terms, added one by
      one; the first bad term's error otherwise. */
  method ParseSide(side: string) returns (r: Result<Items>)
    ensures r.Ok? <==> ParsedSide(side).Ok?
    ensures r.Err? ==> r.error == ParsedSide(side).error
    ensures r.Ok? ==> fresh(r.value) && r.value.entries == ParsedSide(side).value && !r.value.frozen && r.value.Valid()
  {
    var items := new Items();
    var pieces := Text.Split(side, '+');
    for i := 0 to |pieces|
      invariant Terms(pieces[..i]).Ok? && items.entries == Accumulate(Terms(pieces[..i]).value)
      invariant fresh(items) && !items.frozen && items.Valid()
    {
      var term := Term(pieces[i]);
      if term.Err? {
        CollectedFailFirst(pieces, Term, i);
        return Err(term.error);
      }
      var cardinality, name := term.value.0, term.value.1;
      TermsStep(pieces, i);
      var _ := items.Add(cardinality as real, Item(name));
    }
    assert pieces[..|pieces|] == pieces;
    return Ok(items);
  }

  // ---------------------------------------------------------------------
  // A whole line: `(?P<lhs>[^-]+)-(\((?P<via>.*)\))?-*>(?P<rhs>.*)`

  /** The pieces of a matched line: the sides, the optional via, and the
      number of dashes the `-*` run matched. */
  datatype LineParts = LineParts(lhs: string, via: Option<string>, dashes: nat, rhs: string)

  function Dashes(n: nat): (s: string)
    ensures |s| == n && forall i :: 0 <= i < n ==> s[i] == '-'
  {
    if n == 0 then [] else Dashes(n - 1) + "-"
  }

  /** The `-*>` run and the rhs. */
  function Tail(d: nat, rhs: string): string
  {
    Dashes(d) + ">" + rhs
  }

  /** The via group's inside, its `)` and the tail. */
  function ViaText(v: string, tail: string): string
  {
    v + ")" + tail
  }

  /** Everything after the first `-` of a line. */
  function After(p: LineParts): string
  {
    if p.via.Some? then "(" + ViaText(p.via.value, Tail(p.dashes, p.rhs)) else Tail(p.dashes, p.rhs)
  }

  /** The line a match covers. */
  function LineText(p: LineParts): string
  {
    p.lhs + "-" + After(p)
  }

  /** What the pattern demands of each group: a nonempty lhs without `-`, and
      no newline where `.` must match. */
  predicate Shaped(p: LineParts)
  {
    p.lhs != [] && '-' !in p.lhs && '\n' !in p.rhs && (p.via.Some? ==> '\n' !in p.via.value)
  }

  /** `-*>(.*)` matched against all of `u`: the dash count and the rest. */
  function ArrowTail(u: string): Option<(nat, string)>
  {
    if u == [] then None
    else if u[0] == '-' then
      match ArrowTail(u[1..])
      case None => None
      case Some((d, rest)) => Some((d + 1, rest))
    else if u[0] == '>' && '\n' !in u[1..] then Some((0, u[1..]))
    else None
  }

  lemma {:induction false} DashesCons(d: nat)
    ensures Dashes(d + 1) == "-" + Dashes(d)
  {
    if d > 0 {
      DashesCons(d - 1);
    }
  }

  /** What `ArrowTail` matched spells out all of `u`. */
  lemma {:induction false} ArrowTailSpec(u: string)
    requires ArrowTail(u).Some?
    ensures u == Tail(ArrowTail(u).value.0, ArrowTail(u).value.1)
    ensures '\n' !in ArrowTail(u).value.1
  {
    if u[0] == '-' {
      ArrowTailSpec(u[1..]);
      DashesCons(ArrowTail(u[1..]).value.0);
    } else {
      assert u == Dashes(0) + ">" + u[1..];
    }
  }

  /** `ArrowTail` reads back every dash run and rest. */
  lemma {:induction false} ArrowTailOf(d: nat, rhs: string)
    requires '\n' !in rhs
    ensures ArrowTail(Tail(d, rhs)) == Some((d, rhs))
  {
    if d > 0 {
      DashesCons(d - 1);
      assert Tail(d, rhs)[1..] == Tail(d - 1, rhs);
      ArrowTailOf(d - 1, rhs);
    } else {
      assert Tail(d, rhs) == ">" + rhs;
    }
  }

  /** A tail starts with `-` or `>`, and holds no `)` when its rhs holds
      none. */
  lemma TailChars(d: nat, rhs: string)
    ensures Tail(d, rhs)[0] == '-' || Tail(d, rhs)[0] == '>'
    ensures ')' !in rhs ==> ')' !in Tail(d, rhs)
  {
    assert forall k :: 0 <= k < d ==> Dashes(d)[k] != ')';
  }

  /** Whether the via group can close at `t[j]`: a `)` with no newline
      before it, followed by a full `-*>(.*)`. */
  predicate ClosesAt(t: string, j: nat)
  {
    j < |t| && t[j] == ')' && '\n' !in t[..j] && ArrowTail(t[j + 1..]).Some?
  }

  /** The greedy `.*` of the via group: the last position below `n` where the
      group can close. */
  function LastClose(t: string, n: nat): (r: Option<nat>)
    requires n <= |t|
    ensures r.Some? ==> r.value < n && ClosesAt(t, r.value)
  {
    if n == 0 then None
    else if ClosesAt(t, n - 1) then Some(n - 1)
    else LastClose(t, n - 1)
  }

  /** `LastClose` picks a position whenever some position can close the
      group, and none above it can. */
  lemma {:induction false} LastCloseLast(t: string, n: nat, j: nat)
    requires j < n <= |t| && ClosesAt(t, j)
    ensures LastClose(t, n).Some? && j <= LastClose(t, n).value
  {
    if !ClosesAt(t, n - 1) {
      LastCloseLast(t, n - 1, j);
    }
  }

  /** The only closing position with no `)` after it is the one picked. */
  lemma {:induction false} LastCloseUnique(t: string, n: nat, j: nat)
    requires j < n <= |t| && ClosesAt(t, j)
    requires forall k :: j < k < n ==> t[k] != ')'
    ensures LastClose(t, n) == Some(j)
  {
    if n - 1 > j {
      LastCloseUnique(t, n - 1, j);
    }
  }

  /** Where the optional via group closes, when the text after the first
      `-` opens one and some `)` can close it. */
  function ViaClose(rest: string): (r: Option<nat>)
    ensures r.Some? ==> rest != [] && rest[0] == '(' && ClosesAt(rest[1..], r.value)
  {
    if rest != [] && rest[0] == '(' then LastClose(rest[1..], |rest| - 1) else None
  }

  /** The parts when the via group closes at `t[j]`. */
  function ViaParts(lhs: string, t: string, j: nat): LineParts
    requires ClosesAt(t, j)
  {
    var tail := ArrowTail(t[j + 1..]).value;
    LineParts(lhs, Some(t[..j]), tail.0, tail.1)
  }

  /** The parts when there is no via group: the rest must be `-*>(.*)`. */
  function PlainParts(lhs: string, rest: string): Option<LineParts>
  {
    match ArrowTail(rest)
    case None => None
    case Some(tail) => Some(LineParts(lhs, None, tail.0, tail.1))
  }

  /** What follows the first `-`: the via group is tried first, closing as
      late as possible; without it the rest must be `-*>` and the rhs. */
  function MatchRest(lhs: string, rest: string): Option<LineParts>
  {
    match ViaClose(rest)
    case Some(j) => Some(ViaParts(lhs, rest[1..], j))
    case None => PlainParts(lhs, rest)
  }

  /** `_RECIPE_LINE_RE.fullmatch(line)`: the lhs runs to the first `-`,
      which must not be the first character. */
  function MatchLine(line: string): Option<LineParts>
  {
    match Text.IndexOf(line, '-')
    case None => None
    case Some(i) => if i == 0 then None else MatchRest(line[..i], line[i + 1..])
  }

  lemma ViaPartsSpec(lhs: string, t: string, j: nat)
    requires ClosesAt(t, j)
    ensures var p := ViaParts(lhs, t, j);
      p.lhs == lhs && p.via == Some(t[..j]) && '\n' !in t[..j] && '\n' !in p.rhs
      && t == ViaText(t[..j], Tail(p.dashes, p.rhs))
  {
    ArrowTailSpec(t[j + 1..]);
    assert t == t[..j] + ")" + t[j + 1..];
  }

  /** A text that opens the via group: `ViaClose` searches the rest. */
  lemma OpenedVia(rest: string, t: string)
    requires rest == "(" + t
    ensures rest[1..] == t && ViaClose(rest) == LastClose(t, |t|)
  {
    assert rest[1..] == t;
  }

  /** A via group that closes at `rest[1..][j]` gives parts that spell out
      `rest` after the first `-`. */
  lemma ViaMatchSpec(lhs: string, rest: string, j: nat)
    requires ViaClose(rest) == Some(j)
    ensures var p := ViaParts(lhs, rest[1..], j);
      p.lhs == lhs && p.via.Some? && '\n' !in p.via.value && '\n' !in p.rhs && After(p) == rest
  {
    ViaPartsSpec(lhs, rest[1..], j);
    assert rest == "(" + rest[1..];
  }

  /** Without a via group, the parts spell out `rest` after the first
      `-`. */
  lemma PlainMatchSpec(lhs: string, rest: string)
    requires PlainParts(lhs, rest).Some?
    ensures var p := PlainParts(lhs, rest).value;
      p.lhs == lhs && p.via.None? && '\n' !in p.rhs && After(p) == rest
  {
    ArrowTailSpec(rest);
  }

  /** A match is in the shape the pattern describes and spells out the whole
      line. */
  lemma MatchLineSpec(line: string)
    requires MatchLine(line).Some?
    ensures Shaped(MatchLine(line).value) && LineText(MatchLine(line).value) == line
  {
    var i := Text.IndexOf(line, '-').value;
    var lhs, rest := line[..i], line[i + 1..];
    assert line == lhs + "-" + rest;
    var m := MatchRest(lhs, rest);
    assert MatchLine(line) == m;
    match ViaClose(rest)
    case Some(j) =>
      ViaMatchSpec(lhs, rest, j);
    case None =>
      PlainMatchSpec(lhs, rest);
  }

  /** A line whose first `-` ends a nonempty lhs is matched by what follows
      that `-`. */
  lemma MatchLineAt(line: string, lhs: string, rest: string)
    requires lhs != [] && '-' !in lhs && line == lhs + "-" + rest
    ensures MatchLine(line) == MatchRest(lhs, rest)
  {
    assert line == lhs + ['-'] + rest;
    Text.IndexOfFirst(lhs, '-', rest);
    assert line[..|lhs|] == lhs && line[|lhs| + 1..] == rest;
  }

  /** The via group opened right after the first `-` closes right after the
      via when the rhs has no `)`. */
  lemma ViaCloseOf(v: string, d: nat, rhs: string)
    requires '\n' !in v && '\n' !in rhs && ')' !in rhs
    ensures var t := ViaText(v, Tail(d, rhs));
      t[..|v|] == v && t[|v| + 1..] == Tail(d, rhs) && LastClose(t, |t|) == Some(|v|)
  {
    var tail := Tail(d, rhs);
    var t := ViaText(v, tail);
    assert t[..|v|] == v && t[|v| + 1..] == tail && t[|v|] == ')';
    ArrowTailOf(d, rhs);
    TailChars(d, rhs);
    forall k | |v| < k < |t|
      ensures t[k] != ')'
    {
      assert t[k] == tail[k - |v| - 1];
    }
    LastCloseUnique(t, |t|, |v|);
  }

  /** A line in the shape the pattern describes is matched, and when its rhs
      has no `)` (so no later place can close the via group) the match gives
      back exactly its parts. */
  lemma LineRoundTrip(p: LineParts)
    requires Shaped(p) && (p.via.Some? ==> ')' !in p.rhs)
    ensures MatchLine(LineText(p)) == Some(p)
  {
    MatchLineAt(LineText(p), p.lhs, After(p));
    ArrowTailOf(p.dashes, p.rhs);
    if p.via.Some? {
      var t := ViaText(p.via.value, Tail(p.dashes, p.rhs));
      OpenedVia(After(p), t);
      ViaCloseOf(p.via.value, p.dashes, p.rhs);
    } else {
      TailChars(p.dashes, p.rhs);
    }
  }

  /** Every line in the shape the pattern describes is matched, whatever its
      rhs holds. */
  lemma LineMatched(p: LineParts)
    requires Shaped(p)
    ensures MatchLine(LineText(p)).Some?
  {
    MatchLineAt(LineText(p), p.lhs, After(p));
    ArrowTailOf(p.dashes, p.rhs);
    if p.via.Some? {
      var v := p.via.value;
      var t := ViaText(v, Tail(p.dashes, p.rhs));
      OpenedVia(After(p), t);
      assert t[..|v|] == v && t[|v| + 1..] == Tail(p.dashes, p.rhs) && t[|v|] == ')';
      assert ClosesAt(t, |v|);
      LastCloseLast(t, |t|, |v|);
    }
  }

  /** A hyphen inside a left-hand item name ends the lhs early, so such a line
      is not matched. */
  lemma HyphenatedLhsUnmatched(a: string, b: string)
    requires a != [] && '-' !in a
    ensures MatchLine(a + "-ore" + b) == None
  {
    MatchLineAt(a + "-ore" + b, a, "ore" + b);
  }

  // ---------------------------------------------------------------------
  // Parsing a line

  /** `parse_line` on values: the match, both sides, and the single
      destination check of the constructor. */
  function ParsedLine(line: string): (r: Result<(Entries, Entries, Option<string>)>)
    ensures r.Ok? ==> |r.value.1| == 1
  {
    match MatchLine(line)
    case None => Err(ParseError("lefthand/righthand side could not be parsed."))
    case Some(p) =>
      var lhs := ParsedSide(p.lhs);
      if lhs.Err? then Err(lhs.error)
      else
        var rhs := ParsedSide(p.rhs);
        if rhs.Err? then Err(rhs.error)
        else if |rhs.value| != 1 then Err(AssertionFailed)
        else Ok((lhs.value, rhs.value, p.via))
  }

  /** A line the pattern does not match is a `ParseError`; a parsed line
      always has one destination entry and well-formed sides. */
  lemma ParsedLineSpec(line: string)
    ensures MatchLine(line).None? ==> ParsedLine(line).Err? && ParsedLine(line).error.ParseError?
    ensures ParsedLine(line).Ok? ==> WellFormed(ParsedLine(line).value.0) && WellFormed(ParsedLine(line).value.1)
    ensures ParsedLine(line).Ok? ==> ParsedLine(line).value.2 == MatchLine(line).value.via
  {
    match MatchLine(line)
    case None =>
    case Some(p) =>
      var lhs := Terms(Text.Split(p.lhs, '+'));
      var rhs := Terms(Text.Split(p.rhs, '+'));
      if lhs.Ok? {
        AccumulateCount(lhs.value, Item([]));
      }
      if rhs.Ok? {
        AccumulateCount(rhs.value, Item([]));
      }
  }

  /** `parse_line`: a fresh recipe built from the line, or the error. */
  method ParseLine(line: string) returns (r: Result<Recipe>)
    ensures r.Ok? <==> ParsedLine(line).Ok?
    ensures r.Err? ==> r.error == ParsedLine(line).error
    ensures r.Ok? ==> fresh(r.value) && r.value.Valid()
    ensures r.Ok? ==> (r.value.src, r.value.dest, r.value.via) == ParsedLine(line).value
  {
    var m := MatchLine(line);
    if m.None? {
      return Err(ParseError("lefthand/righthand side could not be parsed."));
    }
    var lhs := ParseSide(m.value.lhs);
    if lhs.Err? {
      return Err(lhs.error);
    }
    var rhs := ParseSide(m.value.rhs);
    if rhs.Err? {
      return Err(rhs.error);
    }
    r := Create(lhs.value.entries, rhs.value.entries, m.value.via);
  }

  // ---------------------------------------------------------------------
  // `__str__`

  /** `__str__`, with `pretty_str` of a side given as a parameter: the via
      appears only when present. */
  function Show(r: Recipe, pretty: Entries -> string): string
  {
    if r.via.None? then pretty(r.src) + " --> " + pretty(r.dest)
    else pretty(r.src) + " --(" + r.via.value + ")--> " + pretty(r.dest)
  }

  /** The display of a recipe without via is a line `parse_line` matches,
      with the sides padded by one blank. */
  lemma ShowPlainMatches(r: Recipe, pretty: Entries -> string)
    requires r.via.None? && '-' !in pretty(r.src) && '\n' !in pretty(r.dest)
    ensures MatchLine(Show(r, pretty)) == Some(LineParts(pretty(r.src) + " ", None, 1, " " + pretty(r.dest)))
  {
    var p := LineParts(pretty(r.src) + " ", None, 1, " " + pretty(r.dest));
    assert Dashes(1) == "-";
    assert LineText(p) == Show(r, pretty);
    LineRoundTrip(p);
  }

  /** The display of a recipe with a via writes `--(`, which the line
      pattern (a single `-` before the group) does not accept. */
  lemma ShowViaUnmatched(r: Recipe, pretty: Entries -> string)
    requires r.via.Some? && '-' !in pretty(r.src)
    ensures MatchLine(Show(r, pretty)) == None
  {
    var a := pretty(r.src) + " ";
    var after := "-(" + r.via.value + ")--> " + pretty(r.dest);
    MatchLineAt(Show(r, pretty), a, after);
    assert after[0] == '-' && after[1..][0] == '(';
    assert ViaClose(after) == None;
    assert ArrowTail(after[1..]) == None;
  }
}
