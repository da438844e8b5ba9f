/**
 Query templates: `$name` variables become `$1`, `$2`, ... in the order of their first use.  The
 replacements are made one after another over the whole text, in reverse order of the names.
 */
module QueryTemplate {
  import opened Common

  predicate IsDigit(c: char) { '0' <= c <= '9' }

  predicate IsNameChar(c: char) { 'a' <= c <= 'z' || 'A' <= c <= 'Z' || IsDigit(c) || c == '_' }

  predicate AllDigits(s: string) { forall i :: 0 <= i < |s| ==> IsDigit(s[i]) }

  predicate IsName(s: string) { s != "" && forall i :: 0 <= i < |s| ==> IsNameChar(s[i]) }

  // ---------- tokens ----------

  /** A template is a sequence of plain characters and variables. */
  datatype Piece = Plain(c: char) | Variable(name: string)

  function NameLength(s: string): (n: nat)
    ensures n <= |s|
    ensures forall i :: 0 <= i < n ==> IsNameChar(s[i])
    ensures n < |s| ==> !IsNameChar(s[n])
  {
    if s == "" || !IsNameChar(s[0]) then 0 else 1 + NameLength(s[1..])
  }

  /** A variable is a dollar with the longest name that follows. */
  function Pieces(s: string): seq<Piece>
    decreases |s|
  {
    if s == "" then []
    else if s[0] == '$' && NameLength(s[1..]) > 0 then
      var n := NameLength(s[1..]);
      [Variable(s[1..n + 1])] + Pieces(s[n + 1..])
    else [Plain(s[0])] + Pieces(s[1..])
  }

  /** The text of a template in which the variables of `done` have their new names. */
  function Text(pieces: seq<Piece>, done: map<string, string>): string
    decreases |pieces|
  {
    if pieces == [] then ""
    else Shown(pieces[0], done) + Text(pieces[1..], done)
  }

  function NamesIn(pieces: seq<Piece>): seq<string>
    decreases |pieces|
  {
    if pieces == [] then []
    else if pieces[0].Variable? then [pieces[0].name] + NamesIn(pieces[1..])
    else NamesIn(pieces[1..])
  }

  /** No piece runs into the next: neither a variable nor a lone dollar is followed by a name character. */
  ghost predicate Separated(pieces: seq<Piece>) {
    && (forall i :: 0 <= i < |pieces| && pieces[i].Variable? ==> IsName(pieces[i].name))
    && (forall i :: 0 <= i < |pieces| - 1 && (pieces[i].Variable? || pieces[i] == Plain('$')) ==>
          pieces[i + 1].Plain? ==> !IsNameChar(pieces[i + 1].c))
  }

  predicate StartsWithName(s: string) { s != "" && IsNameChar(s[0]) }

  function Shown(piece: Piece, done: map<string, string>): string {
    match piece
    case Plain(c) => [c]
    case Variable(name) => "$" + if name in done then done[name] else name
  }

  /** The first piece of a text, and how many characters follow its first one. */
  function FirstOf(s: string): (r: (Piece, nat))
    requires s != ""
    ensures r.1 < |s| && Pieces(s) == [r.0] + Pieces(s[r.1 + 1..])
    ensures s == Shown(r.0, map[]) + s[r.1 + 1..]
  {
    var n := if s[0] == '$' then NameLength(s[1..]) else 0;
    (if n > 0 then Variable(s[1..n + 1]) else Plain(s[0]), n)
  }

  lemma {:induction false} PiecesAreSeparated(s: string)
    ensures Separated(Pieces(s))
    ensures Pieces(s) != [] && Pieces(s)[0].Plain? ==> s != "" && Pieces(s)[0].c == s[0]
    decreases |s|
  {
    if s != "" {
      var (piece, n) := FirstOf(s);
      PiecesAreSeparated(s[n + 1..]);
      SeparatedCons(piece, Pieces(s[n + 1..]));
    }
  }

  /** Cutting a template into pieces loses nothing. */
  lemma {:induction false} TextOfPieces(s: string)
    ensures Text(Pieces(s), map[]) == s
    decreases |s|
  {
    if s != "" {
      var (piece, n) := FirstOf(s);
      TextOfPieces(s[n + 1..]);
      TextCons(piece, Pieces(s[n + 1..]), map[]);
    }
  }

  lemma TextCons(first: Piece, rest: seq<Piece>, done: map<string, string>)
    ensures Text([first] + rest, done) == Shown(first, done) + Text(rest, done)
  {
    assert ([first] + rest)[1..] == rest;
  }

  lemma SeparatedCons(piece: Piece, rest: seq<Piece>)
    requires Separated(rest)
    requires piece.Variable? ==> IsName(piece.name)
    requires (piece.Variable? || piece == Plain('$')) && rest != [] && rest[0].Plain? ==> !IsNameChar(rest[0].c)
    ensures Separated([piece] + rest)
  {
    var all := [piece] + rest;
    forall i | 0 <= i < |all| - 1 && (all[i].Variable? || all[i] == Plain('$')) && all[i + 1].Plain?
      ensures !IsNameChar(all[i + 1].c)
    {
      assert all[i + 1] == rest[i];
      if i > 0 {
        assert all[i] == rest[i - 1];
      }
    }
  }

  lemma SeparatedTail(pieces: seq<Piece>, done: map<string, string>)
    requires Separated(pieces) && pieces != []
    ensures Separated(pieces[1..])
    ensures pieces[0].Variable? || pieces[0] == Plain('$') ==> !StartsWithName(Text(pieces[1..], done))
  {
    forall i | 0 <= i < |pieces[1..]| - 1 && (pieces[1..][i].Variable? || pieces[1..][i] == Plain('$')) &&
      pieces[1..][i + 1].Plain?
      ensures !IsNameChar(pieces[1..][i + 1].c)
    {
      assert pieces[i + 1] == pieces[1..][i] && pieces[i + 1 + 1] == pieces[1..][i + 1];
    }
    if |pieces| > 1 && (pieces[0].Variable? || pieces[0] == Plain('$')) {
      assert pieces[0 + 1] == pieces[1..][0];
    }
  }

  // ---------- replacing one substring by another ----------

  /** Every occurrence from the left, without looking into what was put in. */
  function Replace(s: string, old_: string, new_: string): string
    requires old_ != ""
    decreases |s|
  {
    if s == "" then ""
    else if old_ <= s then new_ + Replace(s[|old_|..], old_, new_)
    else [s[0]] + Replace(s[1..], old_, new_)
  }

  /** Text without a dollar is passed over. */
  lemma {:induction false} ReplaceSkips(a: string, b: string, name: string, new_: string)
    requires forall i :: 0 <= i < |a| ==> a[i] != '$'
    ensures Replace(a + b, "$" + name, new_) == a + Replace(b, "$" + name, new_)
    decreases |a|
  {
    if a == "" {
      assert a + b == b;
    } else {
      assert (a + b)[0] == a[0] != '$';
      assert !("$" + name <= a + b) by {
        assert ("$" + name)[0] == '$';
      }
      assert (a + b)[1..] == a[1..] + b;
      ReplaceSkips(a[1..], b, name, new_);
    }
  }

  /** A name that starts a text starts the longest name there. */
  lemma PrefixOfName(v: string, name: string, rest: string)
    requires IsName(v) && !StartsWithName(rest)
    ensures v <= name + rest ==> v <= name
  {
    assert rest != "" ==> (name + rest)[|name|] == rest[0];
    assert name == (name + rest)[..|name|];
  }

  lemma DigitsPrefix(v: string, digits: string)
    requires AllDigits(digits)
    ensures v <= digits ==> AllDigits(v)
  {
  }

  lemma DollarPrefix(v: string, text: string)
    ensures "$" + v <= "$" + text ==> v <= text
  {
    assert ("$" + v)[1..] == v && ("$" + text)[1..] == text;
  }

  // ---------- the order of names ----------

  predicate AtMost(a: string, b: string) {
    a == "" || (b != "" && (a[0] < b[0] || (a[0] == b[0] && AtMost(a[1..], b[1..]))))
  }

  lemma {:induction false} PrefixIsAtMost(a: string, b: string)
    requires a <= b
    ensures AtMost(a, b)
  {
    if a != "" {
      assert a[0] == b[0] && a[1..] <= b[1..];
      PrefixIsAtMost(a[1..], b[1..]);
    }
  }

  lemma {:induction false} AtMostBothWays(a: string, b: string)
    requires AtMost(a, b) && AtMost(b, a)
    ensures a == b
  {
    if a != "" && b != "" {
      AtMostBothWays(a[1..], b[1..]);
      assert a == [a[0]] + a[1..] && b == [b[0]] + b[1..];
    }
  }

  lemma {:induction false} AtMostTotal(a: string, b: string)
    ensures AtMost(a, b) || AtMost(b, a)
  {
    if a != "" && b != "" {
      AtMostTotal(a[1..], b[1..]);
    }
  }

  lemma {:induction false} AtMostOn(a: string, b: string, c: string)
    requires AtMost(a, b) && AtMost(b, c)
    ensures AtMost(a, c)
  {
    if a != "" && a[0] == b[0] == c[0] {
      AtMostOn(a[1..], b[1..], c[1..]);
    }
  }

  function InsertDown(sorted: seq<string>, v: string): seq<string> {
    if sorted == [] || AtMost(sorted[0], v) then [v] + sorted else [sorted[0]] + InsertDown(sorted[1..], v)
  }

  /** Sorted from the last name to the first. */
  function SortDown(names: seq<string>): seq<string> {
    if names == [] then [] else InsertDown(SortDown(names[..|names| - 1]), names[|names| - 1])
  }

  ghost predicate Descending(s: seq<string>) {
    forall i, j :: 0 <= i < j < |s| ==> AtMost(s[j], s[i])
  }

  lemma {:induction false} InsertDownAdds(sorted: seq<string>, v: string, w: string)
    ensures w in InsertDown(sorted, v) <==> w == v || w in sorted
  {
    if sorted != [] && !AtMost(sorted[0], v) {
      InsertDownAdds(sorted[1..], v, w);
      assert sorted == [sorted[0]] + sorted[1..];
    }
  }

  lemma DescendingCons(first: string, rest: seq<string>)
    requires Descending(rest) && forall w :: w in rest ==> AtMost(w, first)
    ensures Descending([first] + rest)
  {
  }

  lemma {:induction false} InsertDownDescends(sorted: seq<string>, v: string)
    requires Descending(sorted)
    ensures Descending(InsertDown(sorted, v))
  {
    if sorted == [] {
    } else if AtMost(sorted[0], v) {
      forall w | w in sorted ensures AtMost(w, v) {
        var i :| 0 <= i < |sorted| && sorted[i] == w;
        if i > 0 {
          AtMostOn(w, sorted[0], v);
        }
      }
      DescendingCons(v, sorted);
    } else {
      var rest := sorted[1..];
      AtMostTotal(sorted[0], v);
      InsertDownDescends(rest, v);
      forall w | w in InsertDown(rest, v) ensures AtMost(w, sorted[0]) {
        InsertDownAdds(rest, v, w);
      }
      DescendingCons(sorted[0], InsertDown(rest, v));
    }
  }

  lemma DistinctCons(first: string, rest: seq<string>)
    requires Distinct(rest) && first !in rest
    ensures Distinct([first] + rest)
  {
  }

  lemma {:induction false} InsertDownIsDistinct(sorted: seq<string>, v: string)
    requires Distinct(sorted) && v !in sorted
    ensures Distinct(InsertDown(sorted, v))
  {
    if sorted == [] || AtMost(sorted[0], v) {
      DistinctCons(v, sorted);
    } else {
      InsertDownIsDistinct(sorted[1..], v);
      InsertDownAdds(sorted[1..], v, sorted[0]);
      DistinctCons(sorted[0], InsertDown(sorted[1..], v));
    }
  }

  lemma {:induction false} SortDownIs(names: seq<string>)
    requires Distinct(names)
    ensures Descending(SortDown(names)) && Distinct(SortDown(names))
    ensures forall v :: v in SortDown(names) <==> v in names
  {
    if names != [] {
      var (init, last) := (names[..|names| - 1], names[|names| - 1]);
      SortDownIs(init);
      assert names == init + [last];
      InsertDownDescends(SortDown(init), last);
      InsertDownIsDistinct(SortDown(init), last);
      forall v ensures v in SortDown(names) <==> v in names {
        InsertDownAdds(SortDown(init), last, v);
      }
    }
  }

  // ---------- one replacement ----------

  /** Replaced names are numbers, which no variable is. */
  ghost predicate Numbers(done: map<string, string>) {
    forall name :: name in done ==> done[name] != "" && AllDigits(done[name])
  }

  /** The names not replaced yet come no later than `v`. */
  ghost predicate NoneAfter(pieces: seq<Piece>, done: map<string, string>, v: string) {
    forall i :: 0 <= i < |pieces| && pieces[i].Variable? && pieces[i].name !in done ==> AtMost(pieces[i].name, v)
  }

  /**
   Replacing the text of the last variable left replaces exactly its tokens, though its name may start other names.
   */
  lemma {:induction false} ReplaceOne(pieces: seq<Piece>, done: map<string, string>, v: string, number: string)
    requires Separated(pieces) && Numbers(done) && NoneAfter(pieces, done, v)
    requires IsName(v) && !AllDigits(v) && v !in done
    ensures Replace(Text(pieces, done), "$" + v, "$" + number) == Text(pieces, done[v := number])
    decreases |pieces|
  {
    if pieces != [] {
      var tail := Text(pieces[1..], done);
      SeparatedTail(pieces, done);
      assert NoneAfter(pieces[1..], done, v) by {
        forall i | 0 <= i < |pieces[1..]| && pieces[1..][i].Variable? && pieces[1..][i].name !in done
          ensures AtMost(pieces[1..][i].name, v)
        {
          assert pieces[1..][i] == pieces[i + 1];
        }
      }
      ReplaceOne(pieces[1..], done, v, number);
      match pieces[0]
      case Plain(c) =>
        ReplacePlain(c, tail, v, number);
      case Variable(name) =>
        assert IsName(pieces[0].name);
        if name == v {
          ReplaceToken(v, tail, number);
        } else {
          var shown := if name in done then done[name] else name;
          NotAPrefix(pieces[0], done, v, tail);
          ReplaceOther(shown, tail, v, number);
        }
    }
  }

  lemma ReplacePlain(c: char, tail: string, v: string, number: string)
    requires IsName(v) && (c == '$' ==> !StartsWithName(tail))
    ensures Replace([c] + tail, "$" + v, "$" + number) == [c] + Replace(tail, "$" + v, "$" + number)
  {
    var s := [c] + tail;
    assert s[1..] == tail;
    assert ("$" + v)[0] == '$';
    if c == '$' {
      DollarPrefix(v, tail);
      PrefixOfName(v, "", tail);
      assert "" + tail == tail;
    }
  }

  lemma ReplaceToken(v: string, tail: string, number: string)
    ensures Replace("$" + v + tail, "$" + v, "$" + number) == "$" + number + Replace(tail, "$" + v, "$" + number)
  {
    var s := "$" + v + tail;
    assert s[..|v| + 1] == "$" + v && s[|v| + 1..] == tail;
  }

  lemma NotAPrefix(piece: Piece, done: map<string, string>, v: string, tail: string)
    requires piece.Variable? && IsName(piece.name) && Numbers(done) && NoneAfter([piece], done, v)
    requires IsName(v) && !AllDigits(v) && v != piece.name && !StartsWithName(tail)
    ensures var shown := if piece.name in done then done[piece.name] else piece.name;
      !(v <= shown + tail) && forall i :: 0 <= i < |shown| ==> shown[i] != '$'
  {
    var shown := if piece.name in done then done[piece.name] else piece.name;
    PrefixOfName(v, shown, tail);
    if piece.name in done {
      DigitsPrefix(v, shown);
    } else {
      assert [piece][0] == piece;
      NamePrefix(v, shown);
    }
  }

  lemma NamePrefix(v: string, name: string)
    requires AtMost(name, v)
    ensures v <= name ==> v == name
  {
    if v <= name {
      PrefixIsAtMost(v, name);
      AtMostBothWays(v, name);
    }
  }

  lemma ReplaceOther(shown: string, tail: string, v: string, number: string)
    requires !(v <= shown + tail) && forall i :: 0 <= i < |shown| ==> shown[i] != '$'
    ensures Replace("$" + shown + tail, "$" + v, "$" + number) == "$" + shown + Replace(tail, "$" + v, "$" + number)
  {
    var s := "$" + shown + tail;
    assert s[1..] == shown + tail;
    assert s == "$" + (shown + tail);
    DollarPrefix(v, shown + tail);
    ReplaceSkips(shown, tail, v, "$" + number);
  }

  // ---------- all the replacements ----------

  function ReplaceAll(s: string, order: seq<string>, numbers: map<string, string>): string
    requires forall v :: v in order ==> v in numbers
    decreases |order|
  {
    if order == [] then s
    else ReplaceAll(Replace(s, "$" + order[0], "$" + numbers[order[0]]), order[1..], numbers)
  }

  /** The numbers given so far, for the names before position `i` of the order. */
  function Given(order: seq<string>, numbers: map<string, string>, i: nat): map<string, string>
    requires i <= |order| && forall v :: v in order ==> v in numbers
  {
    map v | v in order[..i] :: numbers[v]
  }

  ghost predicate AllIn(pieces: seq<Piece>, order: seq<string>) {
    forall k :: 0 <= k < |pieces| && pieces[k].Variable? ==> pieces[k].name in order
  }

  ghost predicate Replaceable(order: seq<string>, numbers: map<string, string>) {
    && Descending(order) && Distinct(order) && Numbers(numbers)
    && forall v :: v in order ==> v in numbers && IsName(v) && !AllDigits(v)
  }

  lemma NextIsLast(pieces: seq<Piece>, order: seq<string>, numbers: map<string, string>, i: nat)
    requires AllIn(pieces, order) && Replaceable(order, numbers) && i < |order|
    ensures NoneAfter(pieces, Given(order, numbers, i), order[i]) && order[i] !in Given(order, numbers, i)
  {
    assert forall j :: 0 <= j < i ==> order[j] in order[..i];
    forall k | 0 <= k < |pieces| && pieces[k].Variable? && pieces[k].name !in Given(order, numbers, i)
      ensures AtMost(pieces[k].name, order[i])
    {
      var j :| 0 <= j < |order| && order[j] == pieces[k].name;
      if j == i {
        PrefixIsAtMost(order[i], order[i]);
      }
    }
  }

  lemma GivenNext(order: seq<string>, numbers: map<string, string>, i: nat)
    requires i < |order| && forall v :: v in order ==> v in numbers
    ensures Given(order, numbers, i)[order[i] := numbers[order[i]]] == Given(order, numbers, i + 1)
  {
    assert order[..i + 1] == order[..i] + [order[i]];
  }

  /** One step of the sequence, from the names before position `i` to those before `i + 1`. */
  lemma ReplaceNext(pieces: seq<Piece>, order: seq<string>, numbers: map<string, string>, i: nat)
    requires Separated(pieces) && AllIn(pieces, order) && Replaceable(order, numbers) && i < |order|
    ensures Replace(Text(pieces, Given(order, numbers, i)), "$" + order[i], "$" + numbers[order[i]]) ==
      Text(pieces, Given(order, numbers, i + 1))
  {
    NextIsLast(pieces, order, numbers, i);
    ReplaceOne(pieces, Given(order, numbers, i), order[i], numbers[order[i]]);
    GivenNext(order, numbers, i);
  }

  lemma ReplaceAllFirst(s: string, order: seq<string>, numbers: map<string, string>, i: nat)
    requires i < |order| && forall v :: v in order ==> v in numbers
    ensures ReplaceAll(s, order[i..], numbers) ==
      ReplaceAll(Replace(s, "$" + order[i], "$" + numbers[order[i]]), order[i + 1..], numbers)
  {
    assert order[i..][0] == order[i] && order[i..][1..] == order[i + 1..];
  }

  lemma {:induction false} ReplaceRest(pieces: seq<Piece>, order: seq<string>, numbers: map<string, string>, i: nat)
    requires Separated(pieces) && AllIn(pieces, order) && Replaceable(order, numbers) && i <= |order|
    ensures ReplaceAll(Text(pieces, Given(order, numbers, i)), order[i..], numbers) ==
      Text(pieces, Given(order, numbers, |order|))
    decreases |order| - i
  {
    if i < |order| {
      ReplaceAllFirst(Text(pieces, Given(order, numbers, i)), order, numbers, i);
      ReplaceNext(pieces, order, numbers, i);
      ReplaceRest(pieces, order, numbers, i + 1);
    }
  }

  // ---------- numbering ----------

  function Digit(d: nat): (c: char)
    requires d < 10
    ensures IsDigit(c)
  {
    ('0' as int + d) as char
  }

  function Value(digits: string): nat
    requires AllDigits(digits)
  {
    if digits == "" then 0 else ValueOf(Value(digits[..|digits| - 1]), digits[|digits| - 1])
  }

  function ValueOf(tens: nat, c: char): nat
    requires IsDigit(c)
  {
    10 * tens + (c as int - '0' as int)
  }

  lemma ValueAppend(digits: string, d: nat)
    requires AllDigits(digits) && d < 10
    ensures AllDigits(digits + [Digit(d)]) && Value(digits + [Digit(d)]) == 10 * Value(digits) + d
  {
    assert (digits + [Digit(d)])[..|digits|] == digits;
  }

  /** Reading the digits gives the number back, so different numbers have different digits. */
  function Decimal(n: nat): (r: string)
    ensures r != "" && AllDigits(r) && Value(r) == n
  {
    if n < 10 then
      ValueAppend("", n);
      assert "" + [Digit(n)] == [Digit(n)];
      [Digit(n)]
    else
      ValueAppend(Decimal(n / 10), n % 10);
      Decimal(n / 10) + [Digit(n % 10)]
  }

  /** The number of position `i`, counted from 1. */
  function NumberAt(i: nat): (r: string)
    ensures r != "" && AllDigits(r) && Value(r) == i + 1
  {
    Decimal(i + 1)
  }

  /** The distinct elements in the order of their first occurrence. */
  function FirstOccurrences(names: seq<string>): seq<string> {
    if names == [] then []
    else
      var init := FirstOccurrences(names[..|names| - 1]);
      if names[|names| - 1] in init then init else init + [names[|names| - 1]]
  }

  lemma {:induction false} FirstOccurrencesAre(names: seq<string>)
    ensures Distinct(FirstOccurrences(names))
    ensures forall v :: v in FirstOccurrences(names) <==> v in names
  {
    if names != [] {
      FirstOccurrencesAre(names[..|names| - 1]);
      assert names == names[..|names| - 1] + [names[|names| - 1]];
    }
  }

  function FirstUse(names: seq<string>, v: string): (i: nat)
    requires v in names
    ensures i < |names| && names[i] == v && forall k :: 0 <= k < i ==> names[k] != v
  {
    if names[0] == v then 0 else FirstUse(names[1..], v) + 1
  }

  /** Earlier first use, smaller number. */
  lemma {:induction false} NumberedByFirstUse(names: seq<string>, i: nat, j: nat)
    requires i < j < |FirstOccurrences(names)|
    ensures FirstOccurrences(names)[i] in names && FirstOccurrences(names)[j] in names
    ensures FirstUse(names, FirstOccurrences(names)[i]) < FirstUse(names, FirstOccurrences(names)[j])
  {
    FirstOccurrencesAre(names);
    var (init, last) := (names[..|names| - 1], names[|names| - 1]);
    FirstOccurrencesAre(init);
    var before := FirstOccurrences(init);
    if j < |before| {
      NumberedByFirstUse(init, i, j);
      FirstUseStays(names, before[i]);
      FirstUseStays(names, before[j]);
    } else {
      FirstUseStays(names, before[i]);
      assert last !in init;
    }
  }

  lemma FirstUseStays(names: seq<string>, v: string)
    requires names != [] && v in names[..|names| - 1]
    ensures v in names && FirstUse(names, v) == FirstUse(names[..|names| - 1], v)
  {
    var init := names[..|names| - 1];
    assert forall k :: 0 <= k < |init| ==> names[k] == init[k];
  }

  function Numbering(variables: seq<string>): (m: map<string, string>)
    ensures forall v :: v in m <==> v in variables
  {
    map v | v in variables :: NumberAt(FirstUse(variables, v))
  }

  // ---------- queries ----------

  /** A compiled template, and its text with the white space squeezed. */
  datatype Query = Query(variables: seq<string>, sql: string, strippedSql: string)

  datatype Mismatch = Mismatch(missing: set<string>, unknown: set<string>)

  predicate Accepted(src: string) {
    forall v :: v in NamesIn(Pieces(src)) ==> !AllDigits(v)
  }

  function VariablesOf(src: string): seq<string> { FirstOccurrences(NamesIn(Pieces(src))) }

  lemma {:induction false} NamesAreVariables(pieces: seq<Piece>)
    ensures forall v :: v in NamesIn(pieces) <==> exists i :: 0 <= i < |pieces| && pieces[i] == Variable(v)
    decreases |pieces|
  {
    if pieces != [] {
      var tail := pieces[1..];
      NamesAreVariables(tail);
      forall v ensures v in NamesIn(pieces) <==> exists i :: 0 <= i < |pieces| && pieces[i] == Variable(v) {
        if v in NamesIn(tail) {
          var i :| 0 <= i < |tail| && tail[i] == Variable(v);
          assert pieces[i + 1] == Variable(v);
        }
        if i :| 0 <= i < |pieces| && pieces[i] == Variable(v) {
          if i > 0 {
            assert tail[i - 1] == Variable(v);
          }
        }
      }
    }
  }

  lemma {:induction false} OnlyNamesMatter(pieces: seq<Piece>, a: map<string, string>, b: map<string, string>)
    requires forall i :: 0 <= i < |pieces| && pieces[i].Variable? ==>
      pieces[i].name in a && pieces[i].name in b && a[pieces[i].name] == b[pieces[i].name]
    ensures Text(pieces, a) == Text(pieces, b)
    decreases |pieces|
  {
    if pieces != [] {
      assert forall i :: 0 <= i < |pieces| - 1 ==> pieces[1..][i] == pieces[i + 1];
      OnlyNamesMatter(pieces[1..], a, b);
    }
  }

  lemma VariablesAreNames(src: string)
    requires Accepted(src)
    ensures Distinct(VariablesOf(src))
    ensures forall v :: v in VariablesOf(src) ==> IsName(v) && !AllDigits(v)
    ensures forall k :: 0 <= k < |Pieces(src)| && Pieces(src)[k].Variable? ==> Pieces(src)[k].name in VariablesOf(src)
  {
    var pieces := Pieces(src);
    PiecesAreSeparated(src);
    NamesAreVariables(pieces);
    FirstOccurrencesAre(NamesIn(pieces));
    forall k | 0 <= k < |pieces| && pieces[k].Variable? ensures pieces[k].name in VariablesOf(src) {
      assert pieces[k] == Variable(pieces[k].name);
    }
  }

  /** Replacing the variables one after another, last name first, is replacing all the tokens at once. */
  lemma SequentialIsSimultaneous(src: string)
    requires Accepted(src)
    ensures var variables := VariablesOf(src);
      && (forall v :: v in SortDown(variables) ==> v in Numbering(variables))
      && ReplaceAll(src, SortDown(variables), Numbering(variables)) == Text(Pieces(src), Numbering(variables))
  {
    VariablesAreNames(src);
    SortDownIs(VariablesOf(src));
    PiecesAreSeparated(src);
    TextOfPieces(src);
    ReplaceFromStart(Pieces(src), SortDown(VariablesOf(src)), Numbering(VariablesOf(src)));
  }

  lemma ReplaceFromStart(pieces: seq<Piece>, order: seq<string>, numbers: map<string, string>)
    requires Separated(pieces) && AllIn(pieces, order) && Replaceable(order, numbers)
    ensures ReplaceAll(Text(pieces, map[]), order, numbers) == Text(pieces, numbers)
  {
    ReplaceRest(pieces, order, numbers, 0);
    assert order[0..] == order && order[..|order|] == order;
    assert Given(order, numbers, 0) == map[];
    OnlyNamesMatter(pieces, Given(order, numbers, |order|), numbers);
  }

  function Arguments<T>(variables: seq<string>, values: map<string, T>): (r: seq<T>)
    requires forall v :: v in variables ==> v in values
    ensures |r| == |variables| && forall k :: 0 <= k < |r| ==> r[k] == values[variables[k]]
  {
    seq(|variables|, k requires 0 <= k < |variables| => values[variables[k]])
  }

  /**
   Every token of an accepted template becomes the number of its variable, and that many-th argument is
   the variable's value; different variables have different numbers.
   */
  lemma TokensGetTheirValues<T>(src: string, values: map<string, T>, i: nat)
    requires Accepted(src) && values.Keys == Elements(VariablesOf(src))
    requires i < |Pieces(src)| && Pieces(src)[i].Variable?
    ensures var (name, variables) := (Pieces(src)[i].name, VariablesOf(src));
      && name in Numbering(variables)
      && var k := Value(Numbering(variables)[name]);
         && 1 <= k <= |variables| && variables[k - 1] == name
         && Arguments(variables, values)[k - 1] == values[name]
         && forall other :: other in variables && Numbering(variables)[other] == Numbering(variables)[name] ==>
           other == name
  {
    VariablesAreNames(src);
    NumbersAreDistinct(VariablesOf(src), Pieces(src)[i].name);
  }

  lemma NumbersAreDistinct(variables: seq<string>, name: string)
    requires name in variables
    ensures Value(Numbering(variables)[name]) == FirstUse(variables, name) + 1
    ensures forall other :: other in variables && Numbering(variables)[other] == Numbering(variables)[name] ==>
      other == name
  {
    forall other | other in variables && Numbering(variables)[other] == Numbering(variables)[name]
      ensures other == name
    {
      assert FirstUse(variables, other) == FirstUse(variables, name);
    }
  }

  // ---------- reading the compiled text back ----------

  function Renamed(pieces: seq<Piece>, names: map<string, string>): (r: seq<Piece>)
    ensures |r| == |pieces|
    decreases |pieces|
  {
    if pieces == [] then []
    else
      [if pieces[0].Variable? && pieces[0].name in names then Variable(names[pieces[0].name]) else pieces[0]]
      + Renamed(pieces[1..], names)
  }

  lemma {:induction false} LongestName(name: string, tail: string)
    requires (forall i :: 0 <= i < |name| ==> IsNameChar(name[i])) && !StartsWithName(tail)
    ensures NameLength(name + tail) == |name|
  {
    if name == "" {
      assert name + tail == tail;
    } else {
      assert (name + tail)[1..] == name[1..] + tail;
      LongestName(name[1..], tail);
    }
  }

  lemma FirstPiece(piece: Piece, shown: string, tail: string)
    requires piece.Variable? && IsName(shown) && !StartsWithName(tail)
    ensures Pieces("$" + shown + tail) == [Variable(shown)] + Pieces(tail)
  {
    var s := "$" + shown + tail;
    LongestName(shown, tail);
    assert s[1..] == shown + tail;
    assert s[1..|shown| + 1] == shown && s[|shown| + 1..] == tail;
  }

  lemma FirstPlain(c: char, tail: string)
    requires c == '$' ==> !StartsWithName(tail)
    ensures Pieces([c] + tail) == [Plain(c)] + Pieces(tail)
  {
    assert ([c] + tail)[1..] == tail;
    if c == '$' {
      LongestName("", tail);
      assert "" + tail == tail;
    }
  }

  /** Cutting a compiled text gives the pieces of the template with the new names. */
  lemma {:induction false} PiecesOfText(pieces: seq<Piece>, names: map<string, string>)
    requires Separated(pieces) && forall v :: v in names ==> IsName(names[v])
    ensures Pieces(Text(pieces, names)) == Renamed(pieces, names)
    decreases |pieces|
  {
    if pieces != [] {
      SeparatedTail(pieces, names);
      PiecesOfText(pieces[1..], names);
      var tail := Text(pieces[1..], names);
      match pieces[0]
      case Plain(c) => FirstPlain(c, tail);
      case Variable(name) =>
        assert IsName(pieces[0].name);
        FirstPiece(pieces[0], if name in names then names[name] else name, tail);
    }
  }

  // ---------- squeezing white space ----------

  predicate IsSpace(c: char) {
    || '\t' <= c <= '\r' || '\U{1c}' <= c <= ' '
    || c in {'\U{85}', '\U{a0}', '\U{1680}', '\U{2028}', '\U{2029}', '\U{202f}', '\U{205f}', '\U{3000}'}
    || '\U{2000}' <= c <= '\U{200a}'
  }

  function WordLength(s: string): (n: nat)
    ensures n <= |s|
    ensures forall i :: 0 <= i < n ==> !IsSpace(s[i])
    ensures n < |s| ==> IsSpace(s[n])
  {
    if s == "" || IsSpace(s[0]) then 0 else 1 + WordLength(s[1..])
  }

  /** The words between white space. */
  function Words(s: string): seq<string>
    decreases |s|
  {
    if s == "" then []
    else if IsSpace(s[0]) then Words(s[1..])
    else
      var n := WordLength(s);
      [s[..n]] + Words(s[n..])
  }

  function JoinWords(words: seq<string>): string {
    if words == [] then ""
    else if |words| == 1 then words[0]
    else words[0] + " " + JoinWords(words[1..])
  }

  lemma {:induction false} NameLengthWith(s: string, tail: string)
    requires !StartsWithName(tail)
    ensures NameLength(s + tail) == NameLength(s)
  {
    if s == "" {
      assert s + tail == tail;
    } else {
      assert (s + tail)[1..] == s[1..] + tail;
      NameLengthWith(s[1..], tail);
    }
  }

  lemma FirstOfLonger(s: string, tail: string)
    requires s != "" && !StartsWithName(tail)
    ensures s + tail != "" && FirstOf(s + tail) == FirstOf(s)
  {
    assert (s + tail)[1..] == s[1..] + tail;
    NameLengthWith(s[1..], tail);
    assert (s + tail)[1..FirstOf(s).1 + 1] == s[1..FirstOf(s).1 + 1];
  }

  function NameOf(piece: Piece): seq<string> {
    if piece.Variable? then [piece.name] else []
  }

  lemma TokensStep(s: string)
    requires s != ""
    ensures NamesIn(Pieces(s)) == NameOf(FirstOf(s).0) + NamesIn(Pieces(s[FirstOf(s).1 + 1..]))
  {
    NamesCons(FirstOf(s).0, Pieces(s[FirstOf(s).1 + 1..]));
  }

  lemma Regroup(x: seq<string>, y: seq<string>, z: seq<string>)
    ensures x + (y + z) == x + y + z
  {
  }

  lemma DropOfAppend(a: string, b: string, k: nat)
    requires k <= |a|
    ensures (a + b)[k..] == a[k..] + b
  {
  }

  lemma TokensOfLonger(a: string, b: string, rest: string)
    requires a != "" && !StartsWithName(b) && rest == a[FirstOf(a).1 + 1..]
    ensures NamesIn(Pieces(a + b)) == NameOf(FirstOf(a).0) + NamesIn(Pieces(rest + b))
  {
    FirstOfLonger(a, b);
    DropOfAppend(a, b, FirstOf(a).1 + 1);
    TokensStep(a + b);
  }

  /** No token crosses into a text that does not start with a name character. */
  lemma {:induction false} TokensOnBothSides(a: string, b: string)
    requires !StartsWithName(b)
    ensures NamesIn(Pieces(a + b)) == NamesIn(Pieces(a)) + NamesIn(Pieces(b))
    decreases |a|
  {
    if a == "" {
      assert a + b == b;
    } else {
      var rest, first := a[FirstOf(a).1 + 1..], NameOf(FirstOf(a).0);
      TokensStep(a);
      TokensOfLonger(a, b, rest);
      calc {
        NamesIn(Pieces(a + b));
        first + NamesIn(Pieces(rest + b));
        { TokensOnBothSides(rest, b); }
        first + (NamesIn(Pieces(rest)) + NamesIn(Pieces(b)));
        { Regroup(first, NamesIn(Pieces(rest)), NamesIn(Pieces(b))); }
        first + NamesIn(Pieces(rest)) + NamesIn(Pieces(b));
        NamesIn(Pieces(a)) + NamesIn(Pieces(b));
      }
    }
  }

  lemma TokensAfter(c: char, b: string)
    requires c != '$'
    ensures NamesIn(Pieces([c] + b)) == NamesIn(Pieces(b))
  {
    FirstPlain(c, b);
    NamesCons(Plain(c), Pieces(b));
  }

  lemma NamesCons(piece: Piece, rest: seq<Piece>)
    ensures NamesIn([piece] + rest) == NameOf(piece) + NamesIn(rest)
  {
    assert ([piece] + rest)[1..] == rest;
  }

  /** Squeezing white space keeps the tokens and their order. */
  lemma {:induction false} SqueezingKeepsTokens(s: string)
    ensures NamesIn(Pieces(JoinWords(Words(s)))) == NamesIn(Pieces(s))
    decreases |s|
  {
    if s == "" {
    } else if IsSpace(s[0]) {
      assert s == [s[0]] + s[1..];
      TokensAfter(s[0], s[1..]);
      SqueezingKeepsTokens(s[1..]);
    } else {
      var n := WordLength(s);
      assert s == s[..n] + s[n..];
      SqueezingKeepsTokens(s[n..]);
      TokensOnBothSides(s[..n], s[n..]);
      JoinFirst(s[..n], Words(s[n..]));
    }
  }

  lemma JoinFirst(word: string, rest: seq<string>)
    ensures NamesIn(Pieces(JoinWords([word] + rest))) == NamesIn(Pieces(word)) + NamesIn(Pieces(JoinWords(rest)))
  {
    assert ([word] + rest)[1..] == rest;
    if rest != [] {
      var tail := " " + JoinWords(rest);
      assert JoinWords([word] + rest) == word + tail;
      TokensOnBothSides(word, tail);
      assert tail == [' '] + JoinWords(rest);
      TokensAfter(' ', JoinWords(rest));
    }
  }

  /** The characters that are not white space, each with whether it begins a word. */
  function Marked(s: string, begins: bool): seq<(char, bool)> {
    if s == "" then []
    else if IsSpace(s[0]) then Marked(s[1..], true)
    else [(s[0], begins)] + Marked(s[1..], false)
  }

  /** White space is single blanks between words only. */
  ghost predicate Tidy(s: string) {
    forall i :: 0 <= i < |s| && IsSpace(s[i]) ==>
      s[i] == ' ' && 0 < i < |s| - 1 && !IsSpace(s[i - 1]) && !IsSpace(s[i + 1])
  }

  ghost predicate IsWord(w: string) { w != "" && forall i :: 0 <= i < |w| ==> !IsSpace(w[i]) }

  lemma {:induction false} MarkedAppend(word: string, tail: string, begins: bool)
    requires IsWord(word)
    ensures Marked(word + tail, begins) == Marked(word, begins) + Marked(tail, false)
  {
    assert (word + tail)[1..] == word[1..] + tail;
    if |word| > 1 {
      MarkedAppend(word[1..], tail, false);
    } else {
      assert word[1..] + tail == tail;
    }
  }

  lemma MarkedBlank(c: char, tail: string, begins: bool)
    requires IsSpace(c)
    ensures Marked([c] + tail, begins) == Marked(tail, true)
  {
    assert ([c] + tail)[1..] == tail;
  }

  lemma {:induction false} WordsAreWords(s: string)
    ensures forall i :: 0 <= i < |Words(s)| ==> IsWord(Words(s)[i])
    decreases |s|
  {
    if s != "" && IsSpace(s[0]) {
      WordsAreWords(s[1..]);
    } else if s != "" {
      WordsAreWords(s[WordLength(s)..]);
    }
  }

  lemma {:induction false} JoinedWordsAreTidy(words: seq<string>)
    requires forall i :: 0 <= i < |words| ==> IsWord(words[i])
    ensures Tidy(JoinWords(words)) && (words != [] ==> JoinWords(words) != "")
  {
    if |words| > 1 {
      JoinedWordsAreTidy(words[1..]);
      var first, rest := words[0], JoinWords(words[1..]);
      var r := JoinWords(words);
      forall i | 0 <= i < |r| && IsSpace(r[i])
        ensures r[i] == ' ' && 0 < i < |r| - 1 && !IsSpace(r[i - 1]) && !IsSpace(r[i + 1])
      {
        if i > |first| {
          assert r[i] == rest[i - |first| - 1];
        }
      }
    }
  }

  /**
   Squeezing changes white space only: the other characters stay in order, those that begin a word still do
   and no others, and all that is left between words is one blank.
   */
  lemma {:induction false} SqueezingKeepsWords(s: string)
    ensures Marked(JoinWords(Words(s)), true) == Marked(s, true) && Tidy(JoinWords(Words(s)))
    decreases |s|
  {
    WordsAreWords(s);
    JoinedWordsAreTidy(Words(s));
    if s != "" && IsSpace(s[0]) {
      SqueezingKeepsWords(s[1..]);
    } else if s != "" {
      var n := WordLength(s);
      var word, rest := s[..n], s[n..];
      assert s == word + rest;
      SqueezingKeepsWords(rest);
      SqueezedFirst(word, Words(rest));
      MarkedAppend(word, rest, true);
    }
  }

  lemma SqueezedFirst(word: string, words: seq<string>)
    requires IsWord(word)
    ensures Marked(JoinWords([word] + words), true) == Marked(word, true) + Marked(JoinWords(words), true)
  {
    assert ([word] + words)[1..] == words;
    if words != [] {
      var tail := [' '] + JoinWords(words);
      assert JoinWords([word] + words) == word + tail;
      MarkedAppend(word, tail, true);
      MarkedBlank(' ', JoinWords(words), false);
    }
  }

  function NumbersOf(names: seq<string>, numbers: map<string, string>): seq<string>
    requires forall v :: v in names ==> v in numbers
  {
    if names == [] then [] else [numbers[names[0]]] + NumbersOf(names[1..], numbers)
  }

  lemma {:induction false} NamesOfRenamed(pieces: seq<Piece>, numbers: map<string, string>)
    requires forall v :: v in NamesIn(pieces) ==> v in numbers
    ensures NamesIn(Renamed(pieces, numbers)) == NumbersOf(NamesIn(pieces), numbers)
    decreases |pieces|
  {
    if pieces != [] {
      assert pieces == [pieces[0]] + pieces[1..];
      NamesCons(pieces[0], pieces[1..]);
      NamesOfRenamed(pieces[1..], numbers);
      var first := if pieces[0].Variable? then Variable(numbers[pieces[0].name]) else pieces[0];
      NamesCons(first, Renamed(pieces[1..], numbers));
    }
  }

  /** The text that is passed on: the placeholders in it are the numbers of the template's variables, in order. */
  lemma PlaceholdersOfText(src: string)
    requires Accepted(src)
    ensures var (names, numbers) := (NamesIn(Pieces(src)), Numbering(VariablesOf(src)));
      && (forall v :: v in names ==> v in numbers)
      && NamesIn(Pieces(JoinWords(Words(Text(Pieces(src), numbers))))) == NumbersOf(names, numbers)
  {
    var (pieces, numbers) := (Pieces(src), Numbering(VariablesOf(src)));
    FirstOccurrencesAre(NamesIn(pieces));
    PiecesAreSeparated(src);
    SqueezingKeepsTokens(Text(pieces, numbers));
    PiecesOfText(pieces, numbers);
    NamesOfRenamed(pieces, numbers);
  }

  // ---------- the code ----------

  /** Compiles a template; refused exactly when a variable name is a number. */
  method Compile(src: string) returns (r: Option<Query>)
    ensures r.Some? <==> Accepted(src)
    ensures r.Some? ==>
      var sql := Text(Pieces(src), Numbering(VariablesOf(src)));
      r.value == Query(VariablesOf(src), sql, JoinWords(Words(sql)))
  {
    var candidates := NamesIn(Pieces(src));
    var variables: seq<string> := [];
    for i := 0 to |candidates|
      invariant variables == FirstOccurrences(candidates[..i])
      invariant forall v :: v in candidates[..i] ==> !AllDigits(v)
    {
      FirstOccurrencesAre(candidates[..i]);
      assert candidates[..i + 1][..i] == candidates[..i];
      if candidates[i] !in variables {
        if AllDigits(candidates[i]) {
          return None;
        }
        variables := variables + [candidates[i]];
      }
    }
    assert candidates[..|candidates|] == candidates;
    var order := SortDown(variables);
    ghost var numbers := Numbering(variables);
    SequentialIsSimultaneous(src);
    var sql := src;
    for i := 0 to |order|
      invariant ReplaceAll(src, order, numbers) == ReplaceAll(sql, order[i..], numbers)
    {
      assert order[i] in order;
      assert order[i..][1..] == order[i + 1..];
      sql := Replace(sql, "$" + order[i], "$" + NumberAt(FirstUse(variables, order[i])));
    }
    return Some(Query(variables, sql, JoinWords(Words(sql))));
  }

  /**
   The arguments of a call: refused, with what is missing and what is unknown, unless exactly the variables are
   given.
   */
  method Call<T>(query: Query, values: map<string, T>) returns (r: Result<(string, seq<T>), Mismatch>)
    ensures values.Keys == Elements(query.variables) ==>
      r == Ok((query.strippedSql, Arguments(query.variables, values)))
    ensures values.Keys != Elements(query.variables) ==>
      r == Err(Mismatch(Elements(query.variables) - values.Keys, values.Keys - Elements(query.variables)))
  {
    if values.Keys != Elements(query.variables) {
      return Err(Mismatch(Elements(query.variables) - values.Keys, values.Keys - Elements(query.variables)));
    }
    var args: seq<T> := [];
    for i := 0 to |query.variables|
      invariant |args| == i && forall k :: 0 <= k < i ==> args[k] == values[query.variables[k]]
    {
      args := args + [values[query.variables[i]]];
    }
    assert args == Arguments(query.variables, values);
    return Ok((query.strippedSql, args));
  }
}
