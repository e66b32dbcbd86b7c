// The balanced scan that cuts JSON objects out of a judge's answer
// (build_retrieval_calibration.py), against the grammar of RFC 8259.
module JsonScan {
  import opened Wrappers

  // ------------------------------------------------------------- the scanner

  // The scanner's state while it looks for the end of a block.
  datatype State = Scan(depth: int, inString: bool, escape: bool) | Done

  const START := Scan(0, false, false)

  function Next(s: State, ch: char): State {
    if s.Done? then Done
    else if s.escape then s.(escape := false)
    else if ch == '\\' then s.(escape := true)
    else if ch == '"' then s.(inString := !s.inString)
    else if s.inString then s
    else if ch == '{' then s.(depth := s.depth + 1)
    else if ch == '}' then if s.depth - 1 == 0 then Done else s.(depth := s.depth - 1)
    else s
  }

  function Run(s: State, t: string): State
    decreases |t|
  {
    if t == [] then s else Run(Next(s, t[0]), t[1..])
  }

  // Where the block that starts in state s ends, if it does.
  function EndOf(s: State, t: string): (e: Option<nat>)
    ensures e.Some? ==> e.value < |t|
    decreases |t|
  {
    if t == [] then None
    else if Next(s, t[0]) == Done then Some(0)
    else
      match EndOf(Next(s, t[0]), t[1..])
      case None => None
      case Some(k) => Some(k + 1)
  }

  // The first opening brace, or the length of the text.
  function OpenAt(t: string): (k: nat)
    ensures k <= |t| && '{' !in t[..k] && (k < |t| ==> t[k] == '{')
  {
    if t == [] then 0
    else if t[0] == '{' then 0
    else
      assert forall i :: 0 < i <= |t| ==> t[..i] == [t[0]] + t[1..][..i-1];
      OpenAt(t[1..]) + 1
  }

  // The first block of a text: what stands before it, the block, and what follows.
  datatype Piece = Piece(filler: string, block: string, rest: string)

  function Cut(t: string): (p: Option<Piece>)
    ensures p.Some? ==> |p.value.rest| < |t| && t == p.value.filler + p.value.block + p.value.rest
  {
    var start := OpenAt(t);
    if start == |t| then None
    else
      match EndOf(START, t[start..])
      case None => None
      case Some(e) => Some(Piece(t[..start], t[start..start+e+1], t[start+e+1..]))
  }

  // The blocks cut out of a text, in order.
  function Blocks(t: string): seq<string>
    decreases |t|
  {
    match Cut(t)
    case None => []
    case Some(p) => [p.block] + Blocks(p.rest)
  }

  function Accepted<T>(blocks: seq<string>, parse: string -> Option<T>): seq<T> {
    if blocks == [] then []
    else
      Accepted(blocks[..|blocks|-1], parse) +
      match parse(blocks[|blocks|-1])
      case None => []
      case Some(x) => [x]
  }

  // -------------------------------------------------------- the program's loops

  method FindOpen(t: string, pos: nat) returns (k: nat)
    requires pos <= |t|
    ensures k == pos + OpenAt(t[pos..])
  {
    k := pos;
    while k < |t| && t[k] != '{'
      invariant pos <= k <= |t| && pos + OpenAt(t[pos..]) == k + OpenAt(t[k..])
    {
      assert t[k..][1..] == t[k+1..];
      k := k + 1;
    }
  }

  method FindEnd(t: string, start: nat) returns (end: Option<nat>)
    requires start <= |t|
    ensures end == match EndOf(START, t[start..]) case None => None case Some(e) => Some(start + e)
  {
    var depth, inString, escape := 0, false, false;
    for i := start to |t|
      invariant EndOf(START, t[start..]) ==
        match EndOf(Scan(depth, inString, escape), t[i..]) case None => None case Some(e) => Some(i - start + e)
    {
      ghost var s := Scan(depth, inString, escape);
      var ch := t[i];
      assert t[i..][0] == ch && t[i..][1..] == t[i+1..];
      if escape {
        escape := false;
        continue;
      }
      if ch == '\\' {
        escape := true;
        continue;
      }
      if ch == '"' {
        inString := !inString;
        continue;
      }
      if !inString {
        if ch == '{' {
          depth := depth + 1;
        } else if ch == '}' {
          depth := depth - 1;
          if depth == 0 {
            return Some(i);
          }
        }
      }
      assert Next(s, ch) == Scan(depth, inString, escape);
    }
    end := None;
  }

  // The block found from pos on, and the position after it.
  method CutNext(clean: string, pos: nat) returns (block: string, next: Option<nat>)
    requires pos <= |clean|
    ensures match Cut(clean[pos..])
      case None => next == None
      case Some(p) => next.Some? && pos < next.value <= |clean| && block == p.block && clean[next.value..] == p.rest
  {
    hide EndOf, OpenAt;
    block, next := [], None;
    var start := FindOpen(clean, pos);
    if start == |clean| { return; }
    var end := FindEnd(clean, start);
    ghost var t := clean[pos..];
    assert t[start-pos..] == clean[start..];
    if end.None? { return; }
    block, next := clean[start..end.value+1], Some(end.value + 1);
    assert t[start-pos..end.value+1-pos] == block && t[end.value+1-pos..] == clean[end.value+1..];
  }

  method ExtractObjects<T>(clean: string, parse: string -> Option<T>) returns (objs: seq<T>)
    ensures objs == Accepted(Blocks(clean), parse)
  {
    hide Cut, Blocks;
    objs := [];
    var pos := 0;
    ghost var cut: seq<string> := [];
    assert clean[0..] == clean;
    while pos < |clean|
      invariant pos <= |clean|
      invariant objs == Accepted(cut, parse) && Blocks(clean) == cut + Blocks(clean[pos..])
      decreases |clean| - pos
    {
      BlocksUnfold(clean[pos..]);
      var block, next := CutNext(clean, pos);
      if next.None? {
        assert cut + [] == cut;
        return;
      }
      var parsed := parse(block);
      if parsed.Some? { objs := objs + [parsed.value]; }
      assert (cut + [block])[..|cut|] == cut;
      cut := cut + [block];
      pos := next.value;
    }
    NoBlocks();
    assert clean[pos..] == [] && cut + [] == cut;
  }

  lemma BlocksUnfold(t: string)
    ensures Blocks(t) == match Cut(t) case None => [] case Some(p) => [p.block] + Blocks(p.rest)
  {
    hide Cut;
  }

  lemma NoBlocks()
    ensures Blocks([]) == []
  {
    assert OpenAt([]) == 0;
  }

  // --------------------------------------------------- what the blocks are

  // A text that opens with a brace and in which the scan ends exactly at the last character.
  ghost predicate IsBalanced(b: string) {
    b != [] && b[0] == '{' && EndOf(START, b) == Some(|b| - 1)
  }

  // Blocks that follow fillers without an opening brace, and a tail without further blocks.
  function Weave(fillers: seq<string>, blocks: seq<string>, tail: string): string
    requires |fillers| == |blocks|
  {
    if blocks == [] then tail
    else fillers[0] + blocks[0] + Weave(fillers[1..], blocks[1..], tail)
  }

  ghost predicate IsDecomposition(fillers: seq<string>, blocks: seq<string>, tail: string) {
    && |fillers| == |blocks|
    && (forall f :: f in fillers ==> '{' !in f)
    && (forall b :: b in blocks ==> IsBalanced(b))
    && (OpenAt(tail) < |tail| ==> EndOf(START, tail[OpenAt(tail)..]) == None)
  }

  lemma {:induction false} EndOfPrefix(s: State, a: string, b: string)
    requires EndOf(s, a).Some?
    ensures EndOf(s, a + b) == EndOf(s, a)
    decreases |a|
  {
    if a != [] {
      assert (a + b)[1..] == a[1..] + b;
      if Next(s, a[0]) != Done { EndOfPrefix(Next(s, a[0]), a[1..], b); }
    }
  }

  lemma {:induction false} EndOfCut(s: State, t: string)
    requires EndOf(s, t).Some?
    ensures EndOf(s, t[..EndOf(s, t).value+1]) == EndOf(s, t)
    decreases |t|
  {
    var e := EndOf(s, t).value;
    if Next(s, t[0]) != Done {
      EndOfCut(Next(s, t[0]), t[1..]);
      assert t[..e+1][1..] == t[1..][..e];
    }
  }

  lemma {:induction false} OpenAfter(f: string, t: string)
    requires '{' !in f
    ensures OpenAt(f + t) == |f| + OpenAt(t)
  {
    if f == [] {
      assert f + t == t;
    } else {
      assert (f + t)[1..] == f[1..] + t;
      OpenAfter(f[1..], t);
    }
  }

  lemma CutAt(f: string, b: string, rest: string)
    requires '{' !in f && IsBalanced(b)
    ensures Cut(f + b + rest) == Some(Piece(f, b, rest))
  {
    hide EndOf, OpenAt;
    var t := f + b + rest;
    assert t == f + (b + rest);
    OpenAfter(f, b + rest);
    OpenHere(b + rest);
    assert t[|f|..] == b + rest;
    EndOfPrefix(START, b, rest);
    assert t[..|f|] == f && t[|f|..|f|+|b|] == b && t[|f|+|b|..] == rest;
  }

  lemma {:induction false} CutIs(t: string)
    ensures match Cut(t)
      case None => OpenAt(t) < |t| ==> EndOf(START, t[OpenAt(t)..]) == None
      case Some(p) => '{' !in p.filler && IsBalanced(p.block)
  {
    hide EndOf, OpenAt, IsBalanced;
    var start := OpenAt(t);
    if start < |t| && EndOf(START, t[start..]).Some? {
      BlockIsBalanced(t[start..]);
      var e := EndOf(START, t[start..]).value;
      assert t[start..][..e+1] == t[start..start+e+1];
    }
  }

  lemma OpenHere(t: string)
    requires t != [] && t[0] == '{'
    ensures OpenAt(t) == 0
  {}

  // The scan recovers the blocks of any text put together in this way.
  lemma {:induction false} BlocksOfWeave(fillers: seq<string>, blocks: seq<string>, tail: string)
    requires IsDecomposition(fillers, blocks, tail)
    ensures Blocks(Weave(fillers, blocks, tail)) == blocks
    decreases |blocks|
  {
    hide EndOf, OpenAt, Cut, Blocks, IsBalanced;
    if blocks == [] {
      BlocksUnfold(tail);
      TailHasNone(tail);
    } else {
      var rest := Weave(fillers[1..], blocks[1..], tail);
      BlocksOfWeave(fillers[1..], blocks[1..], tail);
      CutAt(fillers[0], blocks[0], rest);
      BlocksUnfold(fillers[0] + blocks[0] + rest);
      assert blocks == [blocks[0]] + blocks[1..];
    }
  }

  lemma TailHasNone(tail: string)
    requires OpenAt(tail) < |tail| ==> EndOf(START, tail[OpenAt(tail)..]) == None
    ensures Cut(tail) == None
  {
    hide EndOf, OpenAt;
  }

  // And every text is put together in this way from the blocks that the scan cuts out.
  lemma {:induction false} TextIsWeave(t: string) returns (fillers: seq<string>, tail: string)
    ensures IsDecomposition(fillers, Blocks(t), tail) && t == Weave(fillers, Blocks(t), tail)
    decreases |t|
  {
    hide EndOf, OpenAt, Cut, Blocks, IsBalanced, Weave;
    BlocksUnfold(t);
    CutIs(t);
    match Cut(t)
    case None =>
      fillers, tail := [], t;
      WeaveNone(tail);
    case Some(p) =>
      var fs, tl := TextIsWeave(p.rest);
      fillers, tail := [p.filler] + fs, tl;
      WeaveStep(p.filler, p.block, fs, Blocks(p.rest), tail);
  }

  lemma WeaveNone(tail: string)
    ensures Weave([], [], tail) == tail
  {}

  lemma WeaveStep(f: string, b: string, fillers: seq<string>, blocks: seq<string>, tail: string)
    requires |fillers| == |blocks|
    ensures Weave([f] + fillers, [b] + blocks, tail) == f + b + Weave(fillers, blocks, tail)
  {
    assert ([f] + fillers)[1..] == fillers && ([b] + blocks)[1..] == blocks;
  }

  lemma {:induction false} BlockIsBalanced(t: string)
    requires t != [] && t[0] == '{' && EndOf(START, t).Some?
    ensures IsBalanced(t[..EndOf(START, t).value+1])
  {
    EndOfCut(START, t);
  }

  // ------------------------------------------------------------ JSON texts

  // Section 7 of RFC 8259: a plain character, a two-character escape, or \u and four digits.
  datatype StrChar = Plain(c: char) | Escaped(e: char) | Hex(digits: string)

  datatype Value =
    | Obj(open: string, members: Members)
    | Arr(open: string, elems: Elems)
    | Str(chars: seq<StrChar>)
    | Atom(text: string)

  // Whitespace may stand around every name, colon, value and comma.
  datatype Members = NoMembers | Member(name: seq<StrChar>, w1: string, w2: string, v: Value, w3: string, w4: string,
      more: Members)

  datatype Elems = NoElems | Elem(v: Value, w1: string, w2: string, more: Elems)

  function CharText(c: StrChar): string {
    match c
    case Plain(x) => [x]
    case Escaped(e) => ['\\', e]
    case Hex(d) => ['\\', 'u'] + d
  }

  function CharsText(cs: seq<StrChar>): string {
    if cs == [] then [] else CharText(cs[0]) + CharsText(cs[1..])
  }

  function StrText(cs: seq<StrChar>): string { ['"'] + CharsText(cs) + ['"'] }

  function Text(v: Value): string {
    match v
    case Obj(w, ms) => ['{'] + w + MembersText(ms) + ['}']
    case Arr(w, es) => ['['] + w + ElemsText(es) + [']']
    case Str(cs) => StrText(cs)
    case Atom(t) => t
  }

  function MembersText(ms: Members): string {
    match ms
    case NoMembers => []
    case Member(n, w1, w2, v, w3, w4, more) =>
      StrText(n) + w1 + [':'] + w2 + Text(v) + w3 + (if more.NoMembers? then [] else [',']) + w4 + MembersText(more)
  }

  function ElemsText(es: Elems): string {
    match es
    case NoElems => []
    case Elem(v, w1, w2, more) => Text(v) + w1 + (if more.NoElems? then [] else [',']) + w2 + ElemsText(more)
  }

  const WHITESPACE := {' ', '\t', '\n', '\r'}

  const ATOM_CHARS := {'0', '1', '2', '3', '4', '5', '6', '7', '8', '9', '-', '+', '.', 'e', 'E'}

  ghost predicate IsWhite(w: string) { forall c :: c in w ==> c in WHITESPACE }

  ghost predicate CharOk(c: StrChar) {
    match c
    case Plain(x) => x >= ' ' && x != '"' && x != '\\'
    case Escaped(e) => e in {'"', '\\', '/', 'b', 'f', 'n', 'r', 't'}
    case Hex(d) => |d| == 4 && forall x :: x in d ==> '0' <= x <= '9' || 'a' <= x <= 'f' || 'A' <= x <= 'F'
  }

  ghost predicate CharsOk(cs: seq<StrChar>) { forall c :: c in cs ==> CharOk(c) }

  // The atoms include every number of section 6 and the three literal names.
  ghost predicate AtomOk(t: string) {
    t in {"true", "false", "null"} || (t != [] && forall c :: c in t ==> c in ATOM_CHARS)
  }

  ghost predicate ValueOk(v: Value) {
    match v
    case Obj(w, ms) => IsWhite(w) && MembersOk(ms)
    case Arr(w, es) => IsWhite(w) && ElemsOk(es)
    case Str(cs) => CharsOk(cs)
    case Atom(t) => AtomOk(t)
  }

  ghost predicate MembersOk(ms: Members) {
    match ms
    case NoMembers => true
    case Member(n, w1, w2, v, w3, w4, more) =>
      CharsOk(n) && IsWhite(w1) && IsWhite(w2) && ValueOk(v) && IsWhite(w3) && IsWhite(w4) && MembersOk(more)
  }

  ghost predicate ElemsOk(es: Elems) {
    match es
    case NoElems => true
    case Elem(v, w1, w2, more) => ValueOk(v) && IsWhite(w1) && IsWhite(w2) && ElemsOk(more)
  }

  // ---------------------------------------------- the scanner on JSON texts

  lemma {:induction false} RunConcat(s: State, a: string, b: string)
    ensures Run(s, a + b) == Run(Run(s, a), b)
    decreases |a|
  {
    if a == [] {
      assert a + b == b;
    } else {
      assert (a + b)[1..] == a[1..] + b;
      RunConcat(Next(s, a[0]), a[1..], b);
    }
  }

  const SPECIAL := {'{', '}', '"', '\\'}

  ghost predicate IsQuiet(t: string) { forall c :: c in t ==> c !in SPECIAL }

  lemma {:induction false} RunQuiet(d: int, t: string)
    requires IsQuiet(t)
    ensures Run(Scan(d, false, false), t) == Scan(d, false, false)
  {
    if t != [] { RunQuiet(d, t[1..]); }
  }

  lemma {:induction false} RunChars(d: int, cs: seq<StrChar>)
    requires CharsOk(cs)
    ensures Run(Scan(d, true, false), CharsText(cs)) == Scan(d, true, false)
  {
    if cs != [] {
      RunChar(d, cs[0]);
      RunConcat(Scan(d, true, false), CharText(cs[0]), CharsText(cs[1..]));
      RunChars(d, cs[1..]);
    }
  }

  lemma RunChar(d: int, c: StrChar)
    requires CharOk(c)
    ensures Run(Scan(d, true, false), CharText(c)) == Scan(d, true, false)
  {
    hide Run;
    var s := Scan(d, true, false);
    match c
    case Plain(x) =>
      RunOne(s, x);
      assert x != '\\' && x != '"';
    case Escaped(e) =>
      RunTwo(s, '\\', e);
    case Hex(h) =>
      RunConcat(s, ['\\', 'u'], h);
      RunTwo(s, '\\', 'u');
      RunInString(d, h);
  }

  lemma {:induction false} RunInString(d: int, t: string)
    requires '"' !in t && '\\' !in t
    ensures Run(Scan(d, true, false), t) == Scan(d, true, false)
  {
    if t != [] {
      assert t[0] in t;
      RunInString(d, t[1..]);
    }
  }

  lemma RunOne(s: State, c: char)
    ensures Run(s, [c]) == Next(s, c)
  {
    assert [c][1..] == [];
  }

  lemma RunTwo(s: State, c: char, e: char)
    ensures Run(s, [c, e]) == Next(Next(s, c), e)
  {
    assert [c, e][1..] == [e];
    RunOne(Next(s, c), e);
  }

  // The scanner comes out of the text as it went in, outside strings and at the same depth.
  ghost predicate Keeps(d: int, t: string) {
    Run(Scan(d, false, false), t) == Scan(d, false, false)
  }

  lemma KeepsBoth(d: int, a: string, b: string)
    requires Keeps(d, a) && Keeps(d, b)
    ensures Keeps(d, a + b)
  {
    RunConcat(Scan(d, false, false), a, b);
  }

  lemma KeepsStr(d: int, cs: seq<StrChar>)
    requires CharsOk(cs)
    ensures Keeps(d, StrText(cs))
  {
    hide Run;
    var s, inside := Scan(d, false, false), Scan(d, true, false);
    RunConcat(s, ['"'] + CharsText(cs), ['"']);
    RunConcat(s, ['"'], CharsText(cs));
    RunOne(s, '"');
    RunChars(d, cs);
    RunOne(inside, '"');
  }

  lemma KeepsQuiet(d: int, t: string)
    requires IsWhite(t) || AtomOk(t) || t == [':'] || t == [',']
    ensures Keeps(d, t)
  {
    RunQuiet(d, t);
  }

  // Any well-formed value inside an object, with all its strings and nested brackets.
  lemma {:induction false} KeepsValue(d: int, v: Value)
    requires d >= 1 && ValueOk(v)
    ensures Keeps(d, Text(v))
    decreases v
  {
    hide Run, Keeps;
    match v
    case Obj(w, ms) =>
      KeepsMembers(d + 1, ms);
      Bracketed(d, w, MembersText(ms));
    case Arr(w, es) =>
      KeepsElems(d, es);
      KeepsQuiet(d, w);
      KeepsBracket(d);
      KeepsBoth(d, ['['], w);
      KeepsBoth(d, ['['] + w, ElemsText(es));
      KeepsBoth(d, ['['] + w + ElemsText(es), [']']);
    case Str(cs) => KeepsStr(d, cs);
    case Atom(t) => KeepsQuiet(d, t);
  }

  lemma KeepsBracket(d: int)
    ensures Keeps(d, ['[']) && Keeps(d, [']']) && Keeps(d, [])
  {
    RunOne(Scan(d, false, false), '[');
    RunOne(Scan(d, false, false), ']');
  }

  lemma OpenBody(d: int, w: string, body: string)
    requires IsWhite(w) && Keeps(d + 1, body)
    ensures Run(Scan(d, false, false), ['{'] + w + body) == Scan(d + 1, false, false)
  {
    hide Run;
    var s := Scan(d, false, false);
    RunConcat(s, ['{'] + w, body);
    RunConcat(s, ['{'], w);
    RunOne(s, '{');
    KeepsQuiet(d + 1, w);
  }

  lemma Bracketed(d: int, w: string, body: string)
    requires d >= 1 && IsWhite(w) && Keeps(d + 1, body)
    ensures Keeps(d, ['{'] + w + body + ['}'])
  {
    hide Run;
    OpenBody(d, w, body);
    RunConcat(Scan(d, false, false), ['{'] + w + body, ['}']);
    RunOne(Scan(d + 1, false, false), '}');
  }

  lemma {:induction false} KeepsMembers(d: int, ms: Members)
    requires d >= 1 && MembersOk(ms)
    ensures Keeps(d, MembersText(ms))
    decreases ms
  {
    hide Run, Keeps;
    KeepsBracket(d);
    match ms
    case NoMembers =>
    case Member(n, w1, w2, v, w3, w4, more) =>
      KeepsStr(d, n);
      KeepsValue(d, v);
      KeepsMembers(d, more);
      var sep := if more.NoMembers? then [] else [','];
      KeepsQuiet(d, w1);
      KeepsQuiet(d, [':']);
      KeepsQuiet(d, w2);
      KeepsQuiet(d, w3);
      KeepsQuiet(d, w4);
      KeepsQuiet(d, [',']);
      KeepsBoth(d, StrText(n), w1);
      KeepsBoth(d, StrText(n) + w1, [':']);
      KeepsBoth(d, StrText(n) + w1 + [':'], w2);
      KeepsBoth(d, StrText(n) + w1 + [':'] + w2, Text(v));
      var head := StrText(n) + w1 + [':'] + w2 + Text(v);
      KeepsBoth(d, head, w3);
      KeepsBoth(d, head + w3, sep);
      KeepsBoth(d, head + w3 + sep, w4);
      KeepsBoth(d, head + w3 + sep + w4, MembersText(more));
  }

  lemma {:induction false} KeepsElems(d: int, es: Elems)
    requires d >= 1 && ElemsOk(es)
    ensures Keeps(d, ElemsText(es))
    decreases es
  {
    hide Run, Keeps;
    KeepsBracket(d);
    match es
    case NoElems =>
    case Elem(v, w1, w2, more) =>
      KeepsValue(d, v);
      KeepsElems(d, more);
      var sep := if more.NoElems? then [] else [','];
      KeepsQuiet(d, w1);
      KeepsQuiet(d, w2);
      KeepsQuiet(d, [',']);
      KeepsBoth(d, Text(v), w1);
      KeepsBoth(d, Text(v) + w1, sep);
      KeepsBoth(d, Text(v) + w1 + sep, w2);
      KeepsBoth(d, Text(v) + w1 + sep + w2, ElemsText(more));
  }

  lemma {:induction false} RunFromDone(t: string)
    ensures Run(Done, t) == Done
  {
    if t != [] { RunFromDone(t[1..]); }
  }

  lemma {:induction false} EndsAtLast(s: State, a: string, c: char)
    requires Run(s, a) != Done && Next(Run(s, a), c) == Done
    ensures EndOf(s, a + [c]) == Some(|a|)
    decreases |a|
  {
    if a == [] {
      assert a + [c] == [c];
    } else {
      if Next(s, a[0]) == Done { RunFromDone(a[1..]); }
      assert (a + [c])[1..] == a[1..] + [c];
      EndsAtLast(Next(s, a[0]), a[1..], c);
    }
  }

  // The scan ends a well-formed object at its own closing brace.
  lemma ObjectIsBalanced(v: Value)
    requires v.Obj? && ValueOk(v)
    ensures IsBalanced(Text(v))
  {
    hide Run, EndOf;
    var body := MembersText(v.members);
    KeepsMembers(1, v.members);
    OpenBody(0, v.open, body);
    EndsAtLast(START, ['{'] + v.open + body, '}');
    assert (['{'] + v.open + body + ['}'])[0] == '{';
  }

  function Texts(objs: seq<Value>): (ts: seq<string>)
    ensures |ts| == |objs| && forall i :: 0 <= i < |ts| ==> ts[i] == Text(objs[i])
  {
    if objs == [] then [] else [Text(objs[0])] + Texts(objs[1..])
  }

  // Objects separated by text without an opening brace are cut out exactly, in order,
  // whatever braces, quotes and escapes their strings contain.
  lemma {:induction false} ObjectsAreCutOut(fillers: seq<string>, objs: seq<Value>, tail: string)
    requires |fillers| == |objs|
    requires forall f :: f in fillers ==> '{' !in f
    requires '{' !in tail
    requires forall v :: v in objs ==> v.Obj? && ValueOk(v)
    ensures Blocks(Weave(fillers, Texts(objs), tail)) == Texts(objs)
  {
    hide EndOf, Cut, Blocks, IsBalanced, Weave;
    var texts := Texts(objs);
    forall b | b in texts ensures IsBalanced(b) {
      var i: nat :| i < |texts| && texts[i] == b;
      ObjectIsBalanced(objs[i]);
    }
    assert OpenAt(tail) == |tail|;
    BlocksOfWeave(fillers, texts, tail);
  }
}
