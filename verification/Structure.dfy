/**
  The structure clause: its printed form, the rewrite on the type tree it was printed
  from, and the one-pass rewrite on the text.
 */
module Structure {
  import opened Bytes

  // ---- Trees and their text -----------------------------------------------

  datatype Name = Plain(text: string) | Quoted(inner: string)

  /** A leaf such as Time64(6), or a composite such as Array(T) or Tuple(a T, b U). */
  datatype Type = Leaf(name: string, params: Option<string>) | Node(name: string, args: seq<Arg>)

  /** A type with an optional name: an element of a composite, or a column. */
  datatype Arg = Arg(ident: Option<Name>, typ: Type)

  function Doubled(inner: string): string
  {
    if inner == "" then "" else DoubledChar(inner[0]) + Doubled(inner[1..])
  }

  function DoubledChar(c: char): string
  {
    if c == '"' then "\"\"" else [c]
  }

  function PrintName(n: Name): string
  {
    match n
    case Plain(text) => text
    case Quoted(inner) => "\"" + (Doubled(inner) + "\"")
  }

  function PrintType(t: Type): string
    decreases t
  {
    match t
    case Leaf(name, None) => name
    case Leaf(name, Some(params)) => name + ("(" + (params + ")"))
    case Node(name, args) => name + ("(" + (PrintArgs(args) + ")"))
  }

  function PrintArg(a: Arg): string
    decreases a
  {
    match a.ident
    case None => PrintType(a.typ)
    case Some(n) => PrintName(n) + (" " + PrintType(a.typ))
  }

  function PrintArgs(args: seq<Arg>): string
    decreases args
  {
    if args == [] then ""
    else if |args| == 1 then PrintArg(args[0])
    else PrintArg(args[0]) + (", " + PrintArgs(args[1..]))
  }

  // ---- The rewrite on the tree --------------------------------------------

  function RewriteType(t: Type, target: string): Type
    decreases t
  {
    match t
    case Leaf(name, _) => if name == target then Leaf("String", None) else t
    case Node(name, args) => Node(name, RewriteArgs(args, target))
  }

  function RewriteArgs(args: seq<Arg>, target: string): (r: seq<Arg>)
    ensures |r| == |args|
    decreases args
  {
    if args == [] then []
    else [RewriteArg(args[0], target)] + RewriteArgs(args[1..], target)
  }

  function RewriteArg(a: Arg, target: string): Arg
    decreases a
  {
    Arg(a.ident, RewriteType(a.typ, target))
  }

  // ---- What a printed structure looks like ----------------------------------

  predicate IdentChar(c: char)
  {
    c !in " (),\"" && c != '\0'
  }

  predicate Word(s: string)
  {
    s != "" && forall i | 0 <= i < |s| :: IdentChar(s[i])
  }

  predicate Opens(prev: char)
  {
    prev == ' ' || prev == '('
  }

  /**
    No part of the parameters, read after `prev`, looks like the target standing by
    itself: opened by a space or a parenthesis and closed by a comma or the end.
   */
  predicate Inert(prev: char, params: string, target: string)
    decreases |params|
  {
    params == "" ||
    (&& !(Opens(prev) && target <= params && (|params| == |target| || params[|target|] == ','))
     && Inert(params[0], params[1..], target))
  }

  predicate PlainParams(params: string)
  {
    forall i | 0 <= i < |params| :: params[i] !in "()\""
  }

  predicate WfType(t: Type, target: string)
    decreases t
  {
    match t
    case Leaf(name, None) => Word(name)
    case Leaf(name, Some(params)) =>
      Word(name) && PlainParams(params) && (name == target || Inert('(', params, target))
    case Node(name, args) => Word(name) && name != target && args != [] && WfArgs(args, target)
  }

  predicate WfArgs(args: seq<Arg>, target: string)
    decreases args
  {
    args == [] || (WfArg(args[0], target) && WfArgs(args[1..], target))
  }

  predicate WfArg(a: Arg, target: string)
    decreases a
  {
    && (a.ident.Some? && a.ident.value.Plain? ==> Word(a.ident.value.text))
    && WfType(a.typ, target)
  }

  /** A column list: every element has a name. */
  predicate Columns(args: seq<Arg>)
  {
    forall i | 0 <= i < |args| :: args[i].ident.Some?
  }

  // ---- The rewrite on the text --------------------------------------------

  /** Past a parenthesized parameter list, if the text starts with one. */
  function AfterParams(s: string): (r: string)
    ensures |r| <= |s|
  {
    if s != "" && s[0] == '(' && Find(s, ")").Some? && Find(s, ")").value < |s|
    then s[Find(s, ")").value + 1..] else s
  }

  predicate Closes(s: string)
  {
    s == "" || s[0] == ',' || s[0] == ')'
  }

  /** Whether the target stands by itself at the start of `s`, after `prev`. */
  predicate Stands(prev: char, s: string, target: string)
  {
    Opens(prev) && target <= s && Closes(AfterParams(s[|target|..]))
  }

  /** structure_as_string from a position on: the character before it, the rest, the flag. */
  function Scan(prev: char, s: string, quoted: bool, target: string): string
    requires target != ""
    decreases |s|
  {
    if s == "" then ""
    else
      var q := if s[0] == '"' then !quoted else quoted;
      if !q && Stands(prev, s, target) then
        var end := AfterParams(s[|target|..]);
        "String" + Scan(s[|s| - |end| - 1], end, q, target)
      else
        [s[0]] + Scan(s[0], s[1..], q, target)
  }

  // ---- Text that is copied ------------------------------------------------

  lemma CopyChar(prev: char, s: string, target: string)
    requires Word(target) && s != "" && s[0] != '"'
    requires !Stands(prev, s, target)
    ensures Scan(prev, s, false, target) == [s[0]] + Scan(s[0], s[1..], false, target)
  {
  }

  /** A delimiter never starts the target. */
  lemma CopyDelimiter(prev: char, s: string, target: string)
    requires Word(target) && s != "" && !IdentChar(s[0]) && s[0] != '"'
    ensures Scan(prev, s, false, target) == [s[0]] + Scan(s[0], s[1..], false, target)
  {
    assert IdentChar(target[0]);
  }

  /** A quotation mark flips the flag and is copied. */
  lemma CopyMark(prev: char, tail: string, quoted: bool, target: string)
    requires Word(target)
    ensures Scan(prev, "\"" + tail, quoted, target) == "\"" + Scan('"', tail, !quoted, target)
  {
    var s := "\"" + tail;
    assert s[1..] == tail;
    assert IdentChar(target[0]);
  }

  /** Before a delimiter, what the previous character was does not matter. */
  lemma AnyPrev(p1: char, p2: char, s: string, target: string)
    requires Word(target) && (s == "" || (!IdentChar(s[0]) && s[0] != '"'))
    ensures Scan(p1, s, false, target) == Scan(p2, s, false, target)
  {
    if s != "" {
      CopyDelimiter(p1, s, target);
      CopyDelimiter(p2, s, target);
    }
  }

  /** The scan of a text that starts with a delimiter or is empty. */
  function Rest(s: string, target: string): string
    requires target != ""
  {
    Scan('\0', s, false, target)
  }

  predicate Delimited(s: string)
  {
    s == "" || (!IdentChar(s[0]) && s[0] != '"')
  }

  /** A word is copied unless it is the target standing by itself. */
  lemma {:induction false} CopyWord(prev: char, w: string, tail: string, target: string)
    requires Word(target) && Word(w) && Delimited(tail)
    requires w != target || !Opens(prev) || !Closes(AfterParams(tail))
    ensures Scan(prev, w + tail, false, target) == w + Rest(tail, target)
    decreases |w|
  {
    var s := w + tail;
    WordDoesNotStand(prev, w, tail, target);
    CopyChar(prev, s, target);
    if |w| == 1 {
      assert s[1..] == tail;
      AnyPrev(w[0], '\0', tail, target);
    } else {
      assert s[1..] == w[1..] + tail;
      CopyWord(w[0], w[1..], tail, target);
    }
  }

  lemma WordDoesNotStand(prev: char, w: string, tail: string, target: string)
    requires Word(target) && Word(w) && Delimited(tail)
    requires w != target || !Opens(prev) || !Closes(AfterParams(tail))
    ensures !Stands(prev, w + tail, target)
  {
    var s := w + tail;
    if Opens(prev) && target <= s {
      var n := |target|;
      assert tail != "" ==> s[|w|] == tail[0];
      assert n <= |w|;
      if n < |w| {
        assert s[n..][0] == w[n];
      } else {
        assert w == target && s[n..] == tail;
      }
    }
  }

  /** Inside quotation marks everything is copied. */
  lemma CopyInside(prev: char, c: char, tail: string, target: string)
    requires Word(target)
    ensures Scan(prev, DoubledChar(c) + tail, true, target) == DoubledChar(c) + Scan(c, tail, true, target)
  {
    if c == '"' {
      assert DoubledChar(c) + tail == "\"" + ("\"" + tail);
      CopyMark(prev, "\"" + tail, true, target);
      CopyMark('"', tail, false, target);
    } else {
      assert ([c] + tail)[1..] == tail;
    }
  }

  lemma {:induction false} CopyQuoted(prev: char, inner: string, tail: string, target: string)
    requires Word(target)
    ensures Scan(prev, Doubled(inner) + ("\"" + tail), true, target)
         == Doubled(inner) + ("\"" + Scan('"', tail, false, target))
    decreases |inner|
  {
    hide Scan, DoubledChar;
    if inner == "" {
      assert Doubled(inner) + ("\"" + tail) == "\"" + tail;
      CopyMark(prev, tail, true, target);
    } else {
      var c, more := inner[0], inner[1..];
      var rest := Doubled(more) + ("\"" + tail);
      assert Doubled(inner) + ("\"" + tail) == DoubledChar(c) + rest;
      CopyInside(prev, c, rest, target);
      CopyQuoted(c, more, tail, target);
    }
  }

  /** A name is copied, whatever it is, with the space that follows it. */
  lemma CopyName(prev: char, n: Name, tail: string, target: string)
    requires Word(target) && (n.Plain? ==> Word(n.text))
    ensures Scan(prev, PrintName(n) + (" " + tail), false, target) == PrintName(n) + (" " + Scan(' ', tail, false, target))
  {
    hide Scan, Doubled;
    var s := " " + tail;
    assert s[1..] == tail;
    CopyDelimiter('\0', s, target);
    match n
    case Plain(w) =>
      assert AfterParams(s) == s;
      CopyWord(prev, w, s, target);
    case Quoted(inner) =>
      CopyQuotedName(prev, inner, s, target);
  }

  lemma CopyQuotedName(prev: char, inner: string, s: string, target: string)
    requires Word(target) && Delimited(s)
    ensures Scan(prev, PrintName(Quoted(inner)) + s, false, target) == PrintName(Quoted(inner)) + Rest(s, target)
  {
    hide Scan, Doubled;
    var body := Doubled(inner) + ("\"" + s);
    assert PrintName(Quoted(inner)) + s == "\"" + body;
    CopyMark(prev, body, false, target);
    CopyQuoted('"', inner, s, target);
    AnyPrev('"', '\0', s, target);
    var r := Rest(s, target);
    assert "\"" + (Doubled(inner) + ("\"" + r)) == PrintName(Quoted(inner)) + r;
  }

  /** Parameters in which the target never stands by itself are copied. */
  lemma {:induction false} CopyParams(prev: char, params: string, tail: string, target: string)
    requires Word(target) && PlainParams(params) && Inert(prev, params, target)
    ensures Scan(prev, params + (")" + tail), false, target) == params + Rest(")" + tail, target)
    decreases |params|
  {
    hide Scan, Stands;
    var s := params + (")" + tail);
    if params == "" {
      assert s == ")" + tail;
      AnyPrev(prev, '\0', s, target);
    } else {
      DoesNotStand(prev, params, tail, target);
      CopyChar(prev, s, target);
      assert s[1..] == params[1..] + (")" + tail);
      CopyParams(params[0], params[1..], tail, target);
    }
  }

  // ---- The text rewrite refines the tree rewrite ----------------------------

  lemma Replace(prev: char, s: string, end: string, target: string)
    requires Word(target) && Stands(prev, s, target) && end == AfterParams(s[|target|..])
    ensures Scan(prev, s, false, target) == "String" + Rest(end, target)
  {
    assert IdentChar(s[0]);
    AnyPrev(s[|s| - |end| - 1], '\0', end, target);
  }

  /** The target itself, with or without parameters, becomes String. */
  lemma ReplaceLeaf(prev: char, params: Option<string>, rest: string, target: string)
    requires Word(target) && Opens(prev) && Closes(rest)
    requires params.Some? ==> PlainParams(params.value)
    ensures Scan(prev, PrintType(Leaf(target, params)) + rest, false, target) == "String" + Rest(rest, target)
  {
    hide Scan, Find;
    var s := PrintType(Leaf(target, params)) + rest;
    var after := s[|target|..];
    if params.None? {
      assert after == rest;
    } else {
      var p := params.value;
      assert after == ("(" + p) + ")" + rest;
      CloseIs("(" + p, rest);
      assert after[|p| + 2..] == rest;
    }
    Replace(prev, s, rest, target);
  }

  lemma CloseIs(front: string, rest: string)
    requires ')' !in front
    ensures Find(front + ")" + rest, ")") == Some(|front|)
  {
    var s := front + ")" + rest;
    assert s[|front|] == ')';
    FindOne(s, ')');
    assert s[..|front|] == front;
  }

  /** A character of punctuation is copied. */
  lemma CopyPunctuation(prev: char, c: char, tail: string, target: string)
    requires Word(target) && !IdentChar(c) && c != '"'
    ensures Scan(prev, [c] + tail, false, target) == [c] + Scan(c, tail, false, target)
  {
    var s := [c] + tail;
    assert s[1..] == tail;
    CopyDelimiter(prev, s, target);
  }

  /** A word with parentheses after it: what is inside decides. */
  lemma Bracketed(prev: char, name: string, inner: string, body: string, rest: string, target: string)
    requires Word(target) && Word(name) && name != target && Closes(rest)
    requires Scan('(', inner + (")" + rest), false, target) == body + Rest(")" + rest, target)
    ensures Scan(prev, name + ("(" + (inner + ")")) + rest, false, target)
         == name + ("(" + (body + ")")) + Rest(rest, target)
  {
    hide Scan;
    var inside := inner + (")" + rest);
    assert name + ("(" + (inner + ")")) + rest == name + ("(" + inside);
    CopyWord(prev, name, "(" + inside, target);
    CopyPunctuation('\0', '(', inside, target);
    CopyPunctuation('\0', ')', rest, target);
    AnyPrev(')', '\0', rest, target);
    var r := Rest(rest, target);
    assert name + ("(" + (body + (")" + r))) == name + ("(" + (body + ")")) + r;
  }

  /** Any other leaf is copied. */
  lemma CopyLeaf(prev: char, t: Type, rest: string, target: string)
    requires Word(target) && t.Leaf? && WfType(t, target) && t.name != target && Closes(rest)
    ensures Scan(prev, PrintType(t) + rest, false, target) == PrintType(t) + Rest(rest, target)
  {
    hide Scan, Inert;
    match t.params
    case None => CopyWord(prev, t.name, rest, target);
    case Some(p) =>
      CopyParams('(', p, rest, target);
      Bracketed(prev, t.name, p, p, rest, target);
  }

  /** A type, wherever it may stand, scans to its rewrite. */
  lemma {:induction false} ScanType(prev: char, t: Type, rest: string, target: string)
    requires Word(target) && WfType(t, target) && Opens(prev) && Closes(rest)
    ensures Scan(prev, PrintType(t) + rest, false, target) == PrintType(RewriteType(t, target)) + Rest(rest, target)
    decreases t
  {
    hide Scan, Inert, Rest;
    match t
    case Leaf(name, params) =>
      if name == target {
        ReplaceLeaf(prev, params, rest, target);
      } else {
        CopyLeaf(prev, t, rest, target);
      }
    case Node(name, args) =>
      ScanArgs('(', args, ")" + rest, target);
      Bracketed(prev, name, PrintArgs(args), PrintArgs(RewriteArgs(args, target)), rest, target);
  }

  lemma {:induction false} ScanArg(prev: char, a: Arg, rest: string, target: string)
    requires Word(target) && WfArg(a, target) && Closes(rest) && (a.ident.None? ==> Opens(prev))
    ensures Scan(prev, PrintArg(a) + rest, false, target) == PrintArg(RewriteArg(a, target)) + Rest(rest, target)
    decreases a
  {
    assert target != "";
    hide Scan, Word, WfType, PrintType, RewriteType, PrintName, Rest, Closes, Opens;
    match a.ident
    case None => ScanType(prev, a.typ, rest, target);
    case Some(n) =>
      ScanType(' ', a.typ, rest, target);
      AfterName(prev, n, PrintType(a.typ), PrintType(RewriteType(a.typ, target)), rest, target);
  }

  /** A type scanned after its name. */
  lemma AfterName(prev: char, n: Name, typ: string, typOut: string, rest: string, target: string)
    requires Word(target) && (n.Plain? ==> Word(n.text))
    requires Scan(' ', typ + rest, false, target) == typOut + Rest(rest, target)
    ensures Scan(prev, (PrintName(n) + (" " + typ)) + rest, false, target)
         == (PrintName(n) + (" " + typOut)) + Rest(rest, target)
  {
    assert target != "";
    hide Scan, Word, PrintName, Rest;
    var r, name := Rest(rest, target), PrintName(n);
    assert (name + (" " + typ)) + rest == name + (" " + (typ + rest));
    CopyName(prev, n, typ + rest, target);
    assert name + (" " + (typOut + r)) == (name + (" " + typOut)) + r;
  }

  /** Two elements with ", " between them scan one after the other. */
  lemma Separated(prev: char, one: string, oneOut: string, last: string, target: string)
    requires Word(target)
    requires Scan(prev, one + ("," + (" " + last)), false, target) == oneOut + Rest("," + (" " + last), target)
    ensures Scan(prev, one + (", " + last), false, target) == oneOut + (", " + Scan(' ', last, false, target))
  {
    hide Scan;
    assert ", " + last == "," + (" " + last);
    CopyPunctuation('\0', ',', " " + last, target);
    CopyPunctuation(',', ' ', last, target);
    assert "," + (" " + Scan(' ', last, false, target)) == ", " + Scan(' ', last, false, target);
  }

  lemma {:induction false} ScanArgs(prev: char, args: seq<Arg>, rest: string, target: string)
    requires Word(target) && args != [] && WfArgs(args, target) && (rest == "" || rest[0] == ')')
    requires args[0].ident.None? ==> Opens(prev)
    ensures Scan(prev, PrintArgs(args) + rest, false, target) == PrintArgs(RewriteArgs(args, target)) + Rest(rest, target)
    decreases args
  {
    hide Scan, WfArg, PrintArg, RewriteArg, Rest;
    var first, more := args[0], args[1..];
    if |args| == 1 {
      ScanArg(prev, first, rest, target);
      assert RewriteArgs(args, target) == [RewriteArg(first, target)];
    } else {
      var last := PrintArgs(more) + rest;
      assert PrintArgs(args) + rest == PrintArg(first) + (", " + last);
      ScanArg(prev, first, "," + (" " + last), target);
      Separated(prev, PrintArg(first), PrintArg(RewriteArg(first, target)), last, target);
      ScanArgs(' ', more, rest, target);
      PrintArgsCons(RewriteArg(first, target), RewriteArgs(more, target), Rest(rest, target));
    }
  }

  lemma PrintArgsCons(a: Arg, more: seq<Arg>, r: string)
    requires more != []
    ensures PrintArgs([a] + more) + r == PrintArg(a) + (", " + (PrintArgs(more) + r))
  {
    hide PrintArg;
    assert ([a] + more)[1..] == more;
  }

  /** structure_as_string on the text of a column list is the rewrite of its types. */
  lemma TextRefinesTree(cols: seq<Arg>, target: string)
    requires Word(target) && Columns(cols) && WfArgs(cols, target)
    ensures Scan('\0', PrintArgs(cols), false, target) == PrintArgs(RewriteArgs(cols, target))
  {
    if cols != [] {
      ScanArgs('\0', cols, "", target);
      assert PrintArgs(cols) + "" == PrintArgs(cols);
      assert Rest("", target) == "";
    }
  }

  // ---- What the rewrite does to the tree ------------------------------------

  /** A leaf of the tree is the target. */
  predicate Mentions(t: Type, target: string)
    decreases t
  {
    match t
    case Leaf(name, _) => name == target
    case Node(_, args) => exists a | a in args :: Mentions(a.typ, target)
  }

  /** Names stay, and no leaf is the target any more. */
  lemma {:induction false} RewriteRemoves(t: Type, target: string)
    requires target != "String"
    ensures !Mentions(RewriteType(t, target), target)
    decreases t
  {
    match t
    case Leaf(_, _) =>
    case Node(_, args) => RewriteRemovesAll(args, target);
  }

  lemma {:induction false} RewriteRemovesOne(a: Arg, target: string)
    requires target != "String"
    ensures !Mentions(RewriteArg(a, target).typ, target)
    decreases a
  {
    RewriteRemoves(a.typ, target);
  }

  lemma {:induction false} RewriteRemovesAll(args: seq<Arg>, target: string)
    requires target != "String"
    ensures forall i | 0 <= i < |args| ::
              RewriteArgs(args, target)[i].ident == args[i].ident
              && !Mentions(RewriteArgs(args, target)[i].typ, target)
    decreases args
  {
    if args != [] {
      var first := args[0];
      RewriteRemovesOne(first, target);
      RewriteRemovesAll(args[1..], target);
      forall i | 1 <= i < |args|
        ensures RewriteArgs(args, target)[i] == RewriteArgs(args[1..], target)[i - 1] && args[1..][i - 1] == args[i]
      {
      }
    }
  }

  /** The leaves of a type, from left to right. */
  function Leaves(t: Type): seq<Type>
    decreases t
  {
    match t
    case Leaf(_, _) => [t]
    case Node(_, args) => ArgLeaves(args)
  }

  function ArgLeaves(args: seq<Arg>): seq<Type>
    decreases args
  {
    if args == [] then [] else OneLeaves(args[0]) + ArgLeaves(args[1..])
  }

  function OneLeaves(a: Arg): seq<Type>
    decreases a
  {
    Leaves(a.typ)
  }

  /** The target's leaves have become String, without parameters; the others are as they were. */
  predicate Replaced(was: seq<Type>, now: seq<Type>, target: string)
  {
    |now| == |was| &&
    forall i | 0 <= i < |was| ::
      now[i] == if was[i].name == target then Type.Leaf("String", None) else was[i]
  }

  lemma ReplacedConcat(a: seq<Type>, b: seq<Type>, a': seq<Type>, b': seq<Type>, target: string)
    requires Replaced(a, a', target) && Replaced(b, b', target)
    ensures Replaced(a + b, a' + b', target)
  {
  }

  lemma {:induction false} RewriteLeaves(t: Type, target: string)
    ensures Replaced(Leaves(t), Leaves(RewriteType(t, target)), target)
    ensures t.Node? ==> RewriteType(t, target).Node? && RewriteType(t, target).name == t.name
    decreases t
  {
    match t
    case Leaf(_, _) =>
    case Node(_, args) => RewriteArgLeaves(args, target);
  }

  lemma {:induction false} RewriteOneLeaves(a: Arg, target: string)
    ensures Replaced(OneLeaves(a), OneLeaves(RewriteArg(a, target)), target)
    decreases a
  {
    RewriteLeaves(a.typ, target);
  }

  /** Leaf by leaf, over a whole column list. */
  lemma {:induction false} RewriteArgLeaves(args: seq<Arg>, target: string)
    ensures Replaced(ArgLeaves(args), ArgLeaves(RewriteArgs(args, target)), target)
    decreases args
  {
    hide Replaced;
    if args == [] {
      ReplacedNone(target);
    } else {
      var first, more := args[0], args[1..];
      RewriteOneLeaves(first, target);
      RewriteArgLeaves(more, target);
      var r := RewriteArgs(args, target);
      assert r[0] == RewriteArg(first, target) && r[1..] == RewriteArgs(more, target);
      ReplacedConcat(OneLeaves(first), ArgLeaves(more), OneLeaves(r[0]), ArgLeaves(r[1..]), target);
    }
  }

  lemma ReplacedNone(target: string)
    ensures Replaced([], [], target)
  {
  }

  /** A tree without the target is left as it is. */
  lemma {:induction false} RewriteKeeps(t: Type, target: string)
    requires !Mentions(t, target)
    ensures RewriteType(t, target) == t
    decreases t
  {
    match t
    case Leaf(_, _) =>
    case Node(_, args) => RewriteKeepsAll(args, target);
  }

  lemma {:induction false} RewriteKeepsOne(a: Arg, target: string)
    requires !Mentions(a.typ, target)
    ensures RewriteArg(a, target) == a
    decreases a
  {
    RewriteKeeps(a.typ, target);
  }

  lemma {:induction false} RewriteKeepsAll(args: seq<Arg>, target: string)
    requires forall a | a in args :: !Mentions(a.typ, target)
    ensures RewriteArgs(args, target) == args
    decreases args
  {
    if args != [] {
      var first := args[0];
      assert first in args;
      RewriteKeepsOne(first, target);
      RewriteKeepsAll(args[1..], target);
    }
  }

  lemma {:induction false} RewriteTwice(args: seq<Arg>, target: string)
    requires target != "String"
    ensures RewriteArgs(RewriteArgs(args, target), target) == RewriteArgs(args, target)
  {
    var r := RewriteArgs(args, target);
    RewriteRemovesAll(args, target);
    RewriteKeepsAll(r, target);
  }

  /** Rewriting for one target does not bring another back. */
  lemma {:induction false} RewriteStaysFree(t: Type, target: string, other: string)
    requires other != "String" && !Mentions(t, other)
    ensures !Mentions(RewriteType(t, target), other)
    decreases t
  {
    match t
    case Leaf(_, _) =>
    case Node(_, args) => RewriteArgsStayFree(args, target, other);
  }

  lemma {:induction false} RewriteArgStaysFree(a: Arg, target: string, other: string)
    requires other != "String" && !Mentions(a.typ, other)
    ensures !Mentions(RewriteArg(a, target).typ, other)
    decreases a
  {
    RewriteStaysFree(a.typ, target, other);
  }

  lemma {:induction false} RewriteArgsStayFree(args: seq<Arg>, target: string, other: string)
    requires other != "String" && forall a | a in args :: !Mentions(a.typ, other)
    ensures forall a | a in RewriteArgs(args, target) :: !Mentions(a.typ, other)
    decreases args
  {
    if args != [] {
      var first := args[0];
      assert first in args;
      RewriteArgStaysFree(first, target, other);
      RewriteArgsStayFree(args[1..], target, other);
      assert RewriteArgs(args, target) == [RewriteArg(first, target)] + RewriteArgs(args[1..], target);
    }
  }

  /** Rewriting for one target leaves a text that can be rewritten for another. */
  lemma {:induction false} RewriteStaysWf(t: Type, target: string, other: string)
    requires WfType(t, other)
    ensures WfType(RewriteType(t, target), other)
    decreases t
  {
    match t
    case Leaf(_, _) => assert Word("String");
    case Node(_, args) => RewriteArgsStayWf(args, target, other);
  }

  lemma {:induction false} RewriteArgStaysWf(a: Arg, target: string, other: string)
    requires WfArg(a, other)
    ensures WfArg(RewriteArg(a, target), other)
    decreases a
  {
    RewriteStaysWf(a.typ, target, other);
  }

  lemma {:induction false} RewriteArgsStayWf(args: seq<Arg>, target: string, other: string)
    requires WfArgs(args, other)
    ensures WfArgs(RewriteArgs(args, target), other)
    ensures Columns(args) ==> Columns(RewriteArgs(args, target))
    decreases args
  {
    if args != [] {
      var first := args[0];
      RewriteArgStaysWf(first, target, other);
      RewriteArgsStayWf(args[1..], target, other);
      assert Columns(args) ==> Columns(args[1..]);
    }
  }

  /** Rewriting the text again changes nothing. */
  lemma TextRewriteIdempotent(cols: seq<Arg>, target: string)
    requires Word(target) && target != "String" && Columns(cols) && WfArgs(cols, target)
    ensures var once := Scan('\0', PrintArgs(cols), false, target);
            Scan('\0', once, false, target) == once
  {
    TextRefinesTree(cols, target);
    RewriteArgsStayWf(cols, target, target);
    TextRefinesTree(RewriteArgs(cols, target), target);
    RewriteTwice(cols, target);
  }

  // ---- structure_as_string and its callers ----------------------------------

  /** What the scan still has to add at `pos`. */
  ghost function ScanFrom(structure: string, pos: nat, quoted: bool, target: string): string
    requires pos <= |structure| && target != ""
  {
    Scan(if pos == 0 then '\0' else structure[pos - 1], structure[pos..], quoted, target)
  }

  predicate StandsAt(structure: string, pos: nat, target: string)
    requires pos < |structure|
  {
    Stands(if pos == 0 then '\0' else structure[pos - 1], structure[pos..], target)
  }

  lemma ScanFromCopies(structure: string, pos: nat, quoted: bool, target: string)
    requires pos < |structure| && target != ""
    requires var q := if structure[pos] == '"' then !quoted else quoted; q || !StandsAt(structure, pos, target)
    ensures ScanFrom(structure, pos, quoted, target)
         == [structure[pos]] + ScanFrom(structure, pos + 1, if structure[pos] == '"' then !quoted else quoted, target)
  {
    assert structure[pos..][1..] == structure[pos + 1..];
  }

  lemma ScanFromReplaces(structure: string, pos: nat, quoted: bool, target: string, end: string)
    requires pos < |structure| && target != ""
    requires var q := if structure[pos] == '"' then !quoted else quoted; !q && StandsAt(structure, pos, target)
    requires end == AfterParams(structure[pos..][|target|..])
    ensures ScanFrom(structure, pos, quoted, target)
         == "String" + ScanFrom(structure, |structure| - |end|, false, target)
  {
    hide AfterParams;
    AfterParamsIsSuffix(structure[pos..][|target|..]);
    assert structure[|structure| - |end|..] == end;
    assert structure[pos..][|structure[pos..]| - |end| - 1] == structure[|structure| - |end| - 1];
  }

  /** structure_as_string: the loop over `pos` with its flag and its buffer. */
  method StructureAsString(structure: string, target: string) returns (buf: string)
    requires target != ""
    ensures buf == Scan('\0', structure, false, target)
  {
    hide Scan, AfterParams;
    buf := "";
    var quoted := false;
    var pos: nat := 0;
    assert structure[0..] == structure;
    while pos < |structure|
      invariant pos <= |structure|
      invariant buf + ScanFrom(structure, pos, quoted, target) == Scan('\0', structure, false, target)
    {
      ghost var was := quoted;
      if structure[pos] == '"' {
        quoted := !quoted;
      }
      if !quoted && target <= structure[pos..] && pos > 0 && Opens(structure[pos - 1]) {
        var end := AfterParams(structure[pos..][|target|..]);
        if Closes(end) {
          ScanFromReplaces(structure, pos, was, target, end);
          buf := buf + "String";
          pos := |structure| - |end|;
          continue;
        }
      }
      ScanFromCopies(structure, pos, was, target);
      buf := buf + [structure[pos]];
      pos := pos + 1;
    }
    ScanFromEnd(structure, quoted, target);
  }

  lemma ScanFromEnd(structure: string, quoted: bool, target: string)
    requires target != ""
    ensures ScanFrom(structure, |structure|, quoted, target) == ""
  {
  }

  lemma AfterParamsIsSuffix(s: string)
    ensures |AfterParams(s)| <= |s|
    ensures s[|s| - |AfterParams(s)|..] == AfterParams(s)
  {
  }

  /** The text grows by a comma, except at the start. */
  lemma {:induction false} PrintArgsSnoc(args: seq<Arg>, a: Arg)
    ensures PrintArgs(args + [a]) == if args == [] then PrintArg(a) else PrintArgs(args) + ", " + PrintArg(a)
  {
    hide PrintArg;
    if args != [] {
      assert (args + [a])[1..] == args[1..] + [a];
      PrintArgsSnoc(args[1..], a);
    }
  }

  /** The columns an attribute list chooses, in its order. */
  predicate Chooses(cols: seq<Arg>, desc: seq<Arg>, attnums: seq<nat>)
  {
    |cols| == |attnums| && forall i | 0 <= i < |attnums| :: 1 <= attnums[i] <= |desc| && cols[i] == desc[attnums[i] - 1]
  }

  /** structure_for_attnums, given each attribute's quoted name and chDB type. */
  method StructureForAttnums(desc: seq<Arg>, attnums: seq<nat>, ghost cols: seq<Arg>) returns (buf: string)
    requires Chooses(cols, desc, attnums) && Columns(desc)
    ensures buf == PrintArgs(cols)
  {
    hide PrintArg;
    buf := "";
    for i := 0 to |attnums|
      invariant buf == PrintArgs(cols[..i])
      invariant buf == "" <==> i == 0
    {
      var a := desc[attnums[i] - 1];
      if buf != "" {
        buf := buf + ", ";
      }
      buf := buf + PrintArg(a);
      assert cols[..i + 1] == cols[..i] + [a];
      PrintArgsSnoc(cols[..i], a);
      ArgIsNotEmpty(a);
    }
    assert cols[..|attnums|] == cols;
  }

  lemma ArgIsNotEmpty(a: Arg)
    requires a.ident.Some?
    ensures PrintArg(a) != ""
  {
  }

  function Lower(c: char): char
  {
    if 'A' <= c <= 'Z' then ((c as int) + 32) as char else c
  }

  /** pg_strcasecmp on ASCII names. */
  predicate SameIgnoringCase(a: string, b: string)
  {
    |a| == |b| && forall i | 0 <= i < |a| :: Lower(a[i]) == Lower(b[i])
  }

  const NO_TIME64: seq<string> :=
    ["Parquet", "Arrow", "ArrowStream", "ORC", "Avro", "Protobuf", "ProtobufList", "MsgPack", "BSONEachRow"]

  method FormatLacksTime64(format: string) returns (r: bool)
    ensures r <==> LacksTime64(format)
    ensures r <==> exists f :: SameIgnoringCase(format, f)
                     && f in ["Parquet", "Arrow", "ArrowStream", "ORC", "Avro", "Protobuf", "ProtobufList", "MsgPack", "BSONEachRow"]
  {
    for i := 0 to |NO_TIME64|
      invariant forall k | 0 <= k < i :: !SameIgnoringCase(format, NO_TIME64[k])
    {
      if SameIgnoringCase(format, NO_TIME64[i]) {
        return true;
      }
    }
    return false;
  }

  /** The columns a format can carry: ORC has no UUID, nine formats have no Time64. */
  function Supported(cols: seq<Arg>, orc: bool, lacksTime64: bool): seq<Arg>
  {
    var c1 := if orc then RewriteArgs(cols, "UUID") else cols;
    if lacksTime64 then RewriteArgs(c1, "Time64") else c1
  }

  /** The same on the text, as chdb_copy chains it. */
  function SupportedText(structure: string, orc: bool, lacksTime64: bool): string
  {
    var s1 := if orc then Scan('\0', structure, false, "UUID") else structure;
    if lacksTime64 then Scan('\0', s1, false, "Time64") else s1
  }

  lemma ChainRefinesTree(cols: seq<Arg>, orc: bool, lacksTime64: bool)
    requires Columns(cols) && WfArgs(cols, "UUID") && WfArgs(cols, "Time64")
    ensures SupportedText(PrintArgs(cols), orc, lacksTime64) == PrintArgs(Supported(cols, orc, lacksTime64))
    ensures var c := Supported(cols, orc, lacksTime64); Columns(c) && WfArgs(c, "UUID") && WfArgs(c, "Time64")
  {
    hide Scan, WfArgs, Columns;
    assert Word("UUID") && Word("Time64");
    TextRefinesTree(cols, "UUID");
    TextRefinesTree(cols, "Time64");
    RewriteArgsStayWf(cols, "UUID", "UUID");
    RewriteArgsStayWf(cols, "UUID", "Time64");
    var c1 := if orc then RewriteArgs(cols, "UUID") else cols;
    TextRefinesTree(c1, "Time64");
    RewriteArgsStayWf(c1, "Time64", "UUID");
    RewriteArgsStayWf(c1, "Time64", "Time64");
  }

  /** The second rewrite brings back nothing that the first took, so the chain is idempotent. */
  lemma SupportedTwice(cols: seq<Arg>, orc: bool, lacksTime64: bool)
    ensures Supported(Supported(cols, orc, lacksTime64), orc, lacksTime64) == Supported(cols, orc, lacksTime64)
  {
    hide RewriteArgs, Mentions;
    var c1 := if orc then RewriteArgs(cols, "UUID") else cols;
    var c2 := Supported(cols, orc, lacksTime64);
    if orc {
      RewriteRemovesAll(cols, "UUID");
      if lacksTime64 {
        RewriteArgsStayFree(c1, "Time64", "UUID");
      }
      RewriteKeepsAll(c2, "UUID");
    }
    if lacksTime64 {
      RewriteTwice(c1, "Time64");
    }
  }

  lemma ChainIsIdempotent(cols: seq<Arg>, orc: bool, lacksTime64: bool)
    requires Columns(cols) && WfArgs(cols, "UUID") && WfArgs(cols, "Time64")
    ensures var once := SupportedText(PrintArgs(cols), orc, lacksTime64);
            SupportedText(once, orc, lacksTime64) == once
  {
    hide SupportedText, Supported, WfArgs, Columns;
    ChainRefinesTree(cols, orc, lacksTime64);
    ChainRefinesTree(Supported(cols, orc, lacksTime64), orc, lacksTime64);
    SupportedTwice(cols, orc, lacksTime64);
  }

  predicate LacksTime64(format: string)
  {
    exists f | f in NO_TIME64 :: SameIgnoringCase(format, f)
  }

  lemma OrcLacksTime64(format: string)
    requires SameIgnoringCase(format, "ORC")
    ensures LacksTime64(format)
  {
    assert "ORC" == NO_TIME64[3];
  }

  /** chdb_copy's structure for a copy that did not give one. */
  method DefaultStructure(desc: seq<Arg>, attnums: seq<nat>, format: string, ghost cols: seq<Arg>) returns (structure: string)
    requires Chooses(cols, desc, attnums) && Columns(desc)
    requires WfArgs(cols, "UUID") && WfArgs(cols, "Time64")
    ensures SameIgnoringCase(format, "ORC") ==> structure == PrintArgs(RewriteArgs(RewriteArgs(cols, "UUID"), "Time64"))
    ensures !SameIgnoringCase(format, "ORC") ==>
              structure == PrintArgs(if LacksTime64(format) then RewriteArgs(cols, "Time64") else cols)
    ensures SupportedText(structure, SameIgnoringCase(format, "ORC"), LacksTime64(format)) == structure
  {
    hide Scan, WfArgs, SameIgnoringCase;
    forall i | 0 <= i < |cols| ensures cols[i].ident.Some? {
      assert cols[i] == desc[attnums[i] - 1];
    }
    structure := StructureForAttnums(desc, attnums, cols);
    var orc := SameIgnoringCase(format, "ORC");
    if orc {
      structure := StructureAsString(structure, "UUID");
    }
    var lacks := FormatLacksTime64(format);
    if lacks {
      structure := StructureAsString(structure, "Time64");
    }
    if orc {
      OrcLacksTime64(format);
    }
    ChainRefinesTree(cols, orc, lacks);
    ChainIsIdempotent(cols, orc, lacks);
  }

  // ---- Exactly which parameters survive ---------------------------------------

  /**
    The condition on a leaf's parameters is exact: if the target stands by itself
    anywhere inside them, even between apostrophes, the text is changed.
   */
  lemma {:induction false} ParamsSurvive(prev: char, params: string, tail: string, target: string)
    requires Word(target) && target[0] != 'S' && PlainParams(params)
    ensures Scan(prev, params + (")" + tail), false, target) == params + Rest(")" + tail, target)
            <==> Inert(prev, params, target)
    decreases |params|
  {
    hide Scan;
    var s := params + (")" + tail);
    if Inert(prev, params, target) {
      CopyParams(prev, params, tail, target);
    } else if Opens(prev) && target <= params && (|params| == |target| || params[|target|] == ',') {
      TakenForTarget(prev, params, tail, target);
    } else {
      hide Stands, Rest, Opens;
      var c, more := params[0], params[1..];
      DoesNotStand(prev, params, tail, target);
      CopyChar(prev, s, target);
      assert s[0] == c && s[1..] == more + (")" + tail);
      ParamsSurvive(c, more, tail, target);
      SameTail(c, Scan(c, more + (")" + tail), false, target), more, Rest(")" + tail, target));
      assert params == [c] + more;
    }
  }

  lemma SameTail(c: char, r: string, more: string, rest: string)
    ensures [c] + r == ([c] + more) + rest <==> r == more + rest
  {
    assert ([c] + r)[1..] == r;
    assert ([c] + more) + rest == [c] + (more + rest) && ([c] + (more + rest))[1..] == more + rest;
  }

  /** Parameters that begin like the target standing by itself are replaced. */
  lemma TakenForTarget(prev: char, params: string, tail: string, target: string)
    requires Word(target) && target[0] != 'S' && PlainParams(params)
    requires Opens(prev) && target <= params && (|params| == |target| || params[|target|] == ',')
    ensures Scan(prev, params + (")" + tail), false, target) != params + Rest(")" + tail, target)
  {
    hide Scan;
    var s := params + (")" + tail);
    var after := s[|target|..];
    assert after[0] == (if |params| == |target| then ')' else ',');
    Replace(prev, s, after, target);
    assert ("String" + Rest(after, target))[0] == 'S' && params[0] == target[0];
    assert (params + Rest(")" + tail, target))[0] == params[0];
  }

  lemma DoesNotStand(prev: char, params: string, tail: string, target: string)
    requires Word(target) && PlainParams(params) && params != ""
    requires !(Opens(prev) && target <= params && (|params| == |target| || params[|target|] == ','))
    ensures !Stands(prev, params + (")" + tail), target)
  {
    var s := params + (")" + tail);
    if Opens(prev) && target <= s {
      var n := |target|;
      assert s[|params|] == ')';
      assert n < |params| && s[n..][0] == params[n];
    }
  }

  /** The target between a space and a comma is not inert, whatever surrounds it. */
  lemma {:induction false} StandingInside(prev: char, front: string, rest: string, target: string)
    requires Word(target)
    ensures !Inert(prev, front + (" " + (target + ("," + rest))), target)
    decreases |front|
  {
    var params := front + (" " + (target + ("," + rest)));
    if front == "" {
      assert params[0] == ' ' && params[1..] == target + ("," + rest);
      assert params[1..][|target|] == ',';
      assert !Inert(' ', params[1..], target);
    } else {
      StandingInside(front[0], front[1..], rest, target);
      assert params[0] == front[0] && params[1..] == front[1..] + (" " + (target + ("," + rest)));
    }
  }

  /** So a label such as that of Enum8('a UUID,b' = 1) is changed, apostrophes or not. */
  lemma LabelIsChanged(front: string, rest: string, tail: string, target: string)
    requires Word(target) && target[0] != 'S' && PlainParams(front) && PlainParams(rest) && PlainParams(target)
    ensures var params := front + (" " + (target + ("," + rest)));
            Scan('(', params + (")" + tail), false, target) != params + Rest(")" + tail, target)
  {
    hide Scan;
    var params := front + (" " + (target + ("," + rest)));
    StandingInside('(', front, rest, target);
    ParamsSurvive('(', params, tail, target);
  }
}
