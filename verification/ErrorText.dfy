/**
  What helper_error makes of the captured error output, and why the result is
  valid UTF-8 when the helper's whole output was.
 */
module ErrorText {
  import opened Bytes

  // ---- Section 4 of RFC 3629 ----------------------------------------------

  predicate Tail(b: byte)
  {
    0x80 <= b <= 0xBF
  }

  /** UTF8-char: the encoding of one character. */
  predicate IsChar(s: Bytes)
  {
    || (|s| == 1 && s[0] <= 0x7F)
    || (|s| == 2 && 0xC2 <= s[0] <= 0xDF && Tail(s[1]))
    || (|s| == 3 && Tail(s[2]) &&
          ( (s[0] == 0xE0 && 0xA0 <= s[1] <= 0xBF)
         || (0xE1 <= s[0] <= 0xEC && Tail(s[1]))
         || (s[0] == 0xED && 0x80 <= s[1] <= 0x9F)
         || (0xEE <= s[0] <= 0xEF && Tail(s[1]))))
    || (|s| == 4 && Tail(s[2]) && Tail(s[3]) &&
          ( (s[0] == 0xF0 && 0x90 <= s[1] <= 0xBF)
         || (0xF1 <= s[0] <= 0xF3 && Tail(s[1]))
         || (s[0] == 0xF4 && 0x80 <= s[1] <= 0x8F)))
  }

  /** How many octets the character starting with `b` has, when there is one. */
  function CharLen(b: byte): (n: nat)
    ensures 1 <= n <= 4
  {
    if b <= 0x7F then 1 else if b <= 0xDF then 2 else if b <= 0xEF then 3 else 4
  }

  /** UTF8-octets: any number of characters. */
  predicate ValidUtf8(s: Bytes)
  {
    s == [] ||
    var n := CharLen(s[0]);
    n <= |s| && IsChar(s[..n]) && ValidUtf8(s[n..])
  }

  lemma TailIsValid(s: Bytes)
    requires ValidUtf8(s) && s != []
    ensures CharLen(s[0]) <= |s| && ValidUtf8(s[CharLen(s[0])..])
  {
  }

  /** A whole character may be put before any valid text. */
  lemma PutHead(s: Bytes, n: nat, rest: Bytes)
    requires ValidUtf8(s) && s != [] && n == CharLen(s[0]) && ValidUtf8(rest)
    ensures n <= |s| && ValidUtf8(s[..n] + rest)
  {
    var t := s[..n] + rest;
    assert t[..n] == s[..n] && t[n..] == rest;
  }

  lemma Rejoin(a: Bytes, n: nat, b: Bytes)
    requires n <= |a|
    ensures a[..n] + (a[n..] + b) == a + b
  {
  }

  lemma {:induction false} ValidConcat(a: Bytes, b: Bytes)
    requires ValidUtf8(a) && ValidUtf8(b)
    ensures ValidUtf8(a + b)
  {
    if a == [] {
      assert a + b == b;
    } else {
      hide ValidUtf8, CharLen;
      TailIsValid(a);
      var n := CharLen(a[0]);
      ValidConcat(a[n..], b);
      PutHead(a, n, a[n..] + b);
      Rejoin(a, n, b);
    }
  }

  /** The first character ends before an ASCII byte that is not its first. */
  lemma HeadEndsBefore(s: Bytes, i: nat)
    requires ValidUtf8(s) && 0 < i < |s| && s[i] <= 0x7F
    ensures CharLen(s[0]) <= i && CharLen(s[0]) <= |s| && ValidUtf8(s[CharLen(s[0])..])
  {
    hide IsChar;
    var n := CharLen(s[0]);
    if i < n {
      CharGoesOn(s[..n], i);
      assert false;
    }
  }

  lemma CharGoesOn(c: Bytes, i: nat)
    requires IsChar(c) && 0 < i < |c|
    ensures c[i] > 0x7F
  {
  }

  lemma SplitTwice(s: Bytes, n: nat, i: nat)
    requires n <= i < |s|
    ensures s[..n] + s[n..][..i - n] == s[..i]
    ensures s[n..][i - n..] == s[i..] && s[n..][i - n + 1..] == s[i + 1..]
  {
  }

  /** An ASCII byte is a character of its own, so a text may be cut on either side of it. */
  lemma {:induction false} CutAtAscii(s: Bytes, i: nat)
    requires ValidUtf8(s) && i < |s| && s[i] <= 0x7F
    ensures ValidUtf8(s[..i]) && ValidUtf8(s[i..]) && ValidUtf8(s[i + 1..])
  {
    if i == 0 {
      assert s[0..] == s;
    } else {
      hide ValidUtf8, CharLen;
      HeadEndsBefore(s, i);
      var n := CharLen(s[0]);
      CutAtAscii(s[n..], i - n);
      PutHead(s, n, s[n..][..i - n]);
      SplitTwice(s, n, i);
    }
  }

  // ---- Clipping to a character boundary -----------------------------------

  /** pg_utf_mblen: the length a first byte announces. */
  function MbLen(b: byte): (n: nat)
    ensures 1 <= n <= 4
  {
    if b < 0x80 then 1
    else if 0xC0 <= b < 0xE0 then 2
    else if 0xE0 <= b < 0xF0 then 3
    else if 0xF0 <= b < 0xF8 then 4
    else 1
  }

  /** pg_encoding_mbcliplen with the limit at the end: whole characters, up to a NUL. */
  function ClipLen(s: Bytes): (n: nat)
    ensures n <= |s|
  {
    if s == [] || s[0] == 0 || MbLen(s[0]) > |s| then 0
    else MbLen(s[0]) + ClipLen(s[MbLen(s[0])..])
  }

  /** Whatever follows the cut is a NUL or the start of a character the cut left incomplete. */
  lemma {:induction false} ClipIsMaximal(s: Bytes)
    ensures var n := ClipLen(s); n == |s| || s[n] == 0 || |s| < n + MbLen(s[n])
  {
    if !(s == [] || s[0] == 0 || MbLen(s[0]) > |s|) {
      ClipIsMaximal(s[MbLen(s[0])..]);
    }
  }

  /** Any prefix of a valid text is valid once clipped. */
  lemma {:induction false} ClippedPrefixIsValid(s: Bytes, full: Bytes)
    requires s <= full && ValidUtf8(full)
    ensures ValidUtf8(s[..ClipLen(s)])
  {
    var k := ClipLen(s);
    if k != 0 {
      var n := MbLen(s[0]);
      assert s[0] == full[0] == full[..CharLen(full[0])][0];
      assert n == CharLen(full[0]) && s[..n] == full[..n];
      ClippedPrefixIsValid(s[n..], full[n..]);
      assert s[..k][..n] == s[..n] && s[..k][n..] == s[n..][..k - n];
    }
  }

  // ---- C strings ----------------------------------------------------------

  /** The C string that starts `s`. */
  function CString(s: Bytes): (t: Bytes)
    ensures t <= s && 0 !in t
    ensures t == s || s[|t|] == 0
  {
    if s == [] || s[0] == 0 then [] else
      var t := CString(s[1..]);
      assert s == [s[0]] + s[1..];
      [s[0]] + t
  }

  lemma CStringEnds(s: Bytes, t: Bytes)
    requires t < s && 0 !in t && s[|t|] == 0
    ensures CString(s) == t
  {
    var c := CString(s);
    assert |c| == |t|;
  }

  /** A text followed by a NUL ends where the text itself does. */
  lemma CStringTerminated(s: Bytes, t: Bytes)
    requires t < s && s[|t|] == 0
    ensures CString(s) == CString(t)
  {
    var c := CString(t);
    assert c < s && s[|c|] == 0;
    CStringEnds(s, c);
  }

  /** Moving the rest of a C string, NUL included, down over a span deletes the span. */
  lemma CStringMoved(was: Bytes, text: Bytes, i: nat, j: nat, now: Bytes)
    requires text < was && was[|text|] == 0 && 0 !in text && i <= j < |text|
    requires now == was[..i] + was[j + 1..|text| + 1] + was[i + |text| - j..]
    ensures 0 in now && CString(now) == text[..i] + text[j + 1..]
  {
    var kept := text[..i] + text[j + 1..];
    assert was[..i] == text[..i] && was[j + 1..|text| + 1] == text[j + 1..] + [0];
    assert now == kept + [0] + was[i + |text| - j..];
    assert now[|kept|] == 0;
    CStringEnds(now, kept);
  }

  // ---- helper_error -------------------------------------------------------

  const NUL: byte := 0
  const NEWLINE: byte := 10
  const RETURN: byte := 13
  const CLOSE: byte := 41

  /** "Request ID:" */
  const REQUEST_ID: Bytes := [82, 101, 113, 117, 101, 115, 116, 32, 73, 68, 58]

  /** " (version " */
  const VERSION: Bytes := [32, 40, 118, 101, 114, 115, 105, 111, 110, 32]

  function Stripped(s: Bytes): (t: Bytes)
    ensures t <= s
    ensures t == [] || (t[|t| - 1] != NEWLINE && t[|t| - 1] != RETURN)
  {
    if s != [] && (s[|s| - 1] == NEWLINE || s[|s| - 1] == RETURN) then Stripped(s[..|s| - 1]) else s
  }

  /** The first `start` and the next `stop` after it, if both are there. */
  function Span(s: Bytes, start: Bytes, stop: byte): (r: Option<(nat, nat)>)
    requires start != []
    ensures r.Some? ==>
              r.value.0 <= r.value.1 < |s| && s[r.value.0] == start[0] && s[r.value.1] == stop
  {
    match Find(s, start)
    case None => None
    case Some(i) =>
      FindHead(s, start);
      FindOne(s[i..], stop);
      match Find(s[i..], [stop])
      case None => None
      case Some(k) => Some((i, i + k))
  }

  /** The text without that span. */
  function WithoutSpan(s: Bytes, start: Bytes, stop: byte): (t: Bytes)
    requires start != []
    ensures |t| <= |s|
  {
    match Span(s, start, stop)
    case None => s
    case Some((i, j)) => s[..i] + s[j + 1..]
  }

  function Clipped(s: Bytes): Bytes
  {
    var t := Stripped(s);
    CString(t[..ClipLen(t)])
  }

  /** What helper_error returns: None when the helper said nothing. */
  function Cleaned(captured: Bytes): Option<Bytes>
  {
    var t := Clipped(captured);
    if t == [] then None
    else Some(WithoutSpan(WithoutSpan(t, REQUEST_ID, NEWLINE), VERSION, CLOSE))
  }

  lemma CutOut(s: Bytes, i: nat, j: nat)
    requires ValidUtf8(s) && i <= j < |s| && s[i] <= 0x7F && s[j] <= 0x7F
    ensures ValidUtf8(s[..i] + s[j + 1..])
  {
    CutAtAscii(s, i);
    CutAtAscii(s, j);
    ValidConcat(s[..i], s[j + 1..]);
  }

  lemma WithoutSpanIsValid(s: Bytes, start: Bytes, stop: byte)
    requires ValidUtf8(s) && start != [] && start[0] <= 0x7F && stop <= 0x7F
    ensures ValidUtf8(WithoutSpan(s, start, stop))
  {
    hide Span, ValidUtf8;
    match Span(s, start, stop)
    case None =>
    case Some((i, j)) => CutOut(s, i, j);
  }

  lemma CStringIsValid(s: Bytes)
    requires ValidUtf8(s)
    ensures ValidUtf8(CString(s))
  {
    var n := |CString(s)|;
    assert CString(s) == s[..n];
    if n < |s| {
      CutAtAscii(s, n);
    } else {
      assert s[..n] == s;
    }
  }

  /**
    If the helper's whole output is valid UTF-8, so is the text the client is sent,
    wherever the capture was cut.
   */
  lemma CleanedIsValid(captured: Bytes, full: Bytes)
    requires captured <= full && ValidUtf8(full)
    ensures Cleaned(captured).Some? ==> ValidUtf8(Cleaned(captured).value)
  {
    var t := Stripped(captured);
    ClippedPrefixIsValid(t, full);
    CStringIsValid(t[..ClipLen(t)]);
    var text := Clipped(captured);
    WithoutSpanIsValid(text, REQUEST_ID, NEWLINE);
    WithoutSpanIsValid(WithoutSpan(text, REQUEST_ID, NEWLINE), VERSION, CLOSE);
  }

  /** Nothing else is lost: a whole valid text with neither note comes through as it is. */
  lemma CleanedKeepsText(s: Bytes)
    requires s != [] && ValidUtf8(s) && NUL !in s && s[|s| - 1] !in [NEWLINE, RETURN]
    requires Find(s, REQUEST_ID).None? && Find(s, VERSION).None?
    ensures Cleaned(s) == Some(s)
  {
    ClippedKeeps(s);
  }

  lemma ClippedKeeps(s: Bytes)
    requires s != [] && ValidUtf8(s) && NUL !in s && s[|s| - 1] !in [NEWLINE, RETURN]
    ensures Clipped(s) == s
  {
    ClipKeepsValid(s);
    assert Stripped(s) == s;
    hide Stripped, ValidUtf8, ClipLen, CString;
    var c := CString(s);
    assert c == s[..|c|];
    assert |c| == |s|;
    assert s[..|s|] == s;
  }

  lemma {:induction false} ClipKeepsValid(s: Bytes)
    requires ValidUtf8(s) && NUL !in s
    ensures ClipLen(s) == |s|
  {
    if s != [] {
      assert s[..CharLen(s[0])][0] == s[0];
      ClipKeepsValid(s[CharLen(s[0])..]);
    }
  }

  /** The first `start` through the next `stop` goes, and only that. */
  lemma SpanRemoved(before: Bytes, start: Bytes, note: Bytes, stop: byte, after: Bytes)
    requires start != [] && stop !in start + note
    requires forall k: nat | k < |before| :: !At(before + start, k, start)
    ensures WithoutSpan(before + start + note + [stop] + after, start, stop) == before + after
  {
    hide Find, At;
    var s := before + start + note + [stop] + after;
    var i, k := |before|, |start + note|;
    var tail := note + [stop] + after;
    assert s == before + start + tail;
    SpanStarts(before, start, tail);
    assert s[i..] == (start + note) + [stop] + after;
    SpanStops(start + note, stop, after);
    assert s[..i] == before && s[i + k + 1..] == after;
  }

  lemma SpanStarts(before: Bytes, start: Bytes, tail: Bytes)
    requires forall k: nat | k < |before| :: !At(before + start, k, start)
    ensures Find(before + start + tail, start) == Some(|before|)
  {
    var s := before + start + tail;
    forall k: nat | k < |before| ensures !At(s, k, start) {
      AtPrefix(before + start, tail, k, start);
    }
    assert s[|before|..] == start + tail;
    FindIs(s, start, |before|);
  }

  lemma SpanStops(front: Bytes, stop: byte, after: Bytes)
    requires stop !in front
    ensures Find(front + [stop] + after, [stop]) == Some(|front|)
  {
    var rest := front + [stop] + after;
    assert rest[|front|] == stop;
    FindOne(rest, stop);
    assert rest[..|front|] == front;
  }

  // ---- What is deleted, in the words of the text --------------------------------

  function Ascii(s: string): (t: Bytes)
    requires forall i | 0 <= i < |s| :: s[i] < 128 as char
    ensures |t| == |s| && forall i | 0 <= i < |s| :: t[i] == s[i] as int
  {
    seq(|s|, i requires 0 <= i < |s| => s[i] as int)
  }

  lemma MarksAreLiteral()
    ensures REQUEST_ID == Ascii("Request ID:") && VERSION == Ascii(" (version ")
    ensures [NEWLINE] == Ascii("\n") && [RETURN] == Ascii("\r") && [CLOSE] == Ascii(")")
  {
  }

  /** Line ends, as they trail a message. */
  predicate LineEnds(s: Bytes)
  {
    forall i | 0 <= i < |s| :: s[i] == '\n' as int || s[i] == '\r' as int
  }

  lemma {:induction false} StrippedOf(core: Bytes, ends: Bytes)
    requires core != [] && !LineEnds([core[|core| - 1]]) && LineEnds(ends)
    ensures Stripped(core + ends) == core
  {
    var s := core + ends;
    if ends == [] {
      assert s == core && core[|core| - 1] == [core[|core| - 1]][0];
    } else {
      var front := ends[..|ends| - 1];
      assert s[..|s| - 1] == core + front && s[|s| - 1] == ends[|ends| - 1];
      StrippedOf(core, front);
    }
  }

  lemma ClippedOf(core: Bytes, ends: Bytes)
    requires core != [] && !LineEnds([core[|core| - 1]]) && LineEnds(ends)
    requires ValidUtf8(core) && NUL !in core
    ensures Clipped(core + ends) == core
  {
    hide Stripped, ValidUtf8, ClipLen, CString, LineEnds;
    StrippedOf(core, ends);
    ClipKeepsValid(core);
    var c := CString(core);
    assert core[..|core|] == core;
    assert |c| == |core| && c == core[..|c|];
  }

  /** The text of an optional note: its mark, what it says, and its stop. */
  function Note(mark: string, note: Option<Bytes>, stop: string): Bytes
    requires forall i | 0 <= i < |mark| :: mark[i] < 128 as char
    requires forall i | 0 <= i < |stop| :: stop[i] < 128 as char
  {
    if note.Some? then Ascii(mark) + note.value + Ascii(stop) else []
  }

  /** The first `mark` in a text is the one after `before`. */
  predicate FirstAfter(before: Bytes, mark: Bytes)
  {
    forall k: nat | k < |before| :: !At(before + mark, k, mark)
  }

  /**
    helper_error on a whole message of at most these parts: the Request ID line and the
    version note go, each if it is there, with the line ends behind; the rest stays.
   */
  lemma NotesAreDeleted(before: Bytes, id: Option<Bytes>, middle: Bytes, version: Option<Bytes>, after: Bytes, ends: Bytes)
    requires var core := before + Note("Request ID:", id, "\n") + (middle + Note(" (version ", version, ")") + after);
             core != [] && !LineEnds([core[|core| - 1]]) && ValidUtf8(core) && NUL !in core
    requires LineEnds(ends)
    requires if id.Some? then FirstAfter(before, Ascii("Request ID:")) && '\n' as int !in id.value
             else Find(before + (middle + Note(" (version ", version, ")") + after), Ascii("Request ID:")).None?
    requires if version.Some? then FirstAfter(before + middle, Ascii(" (version ")) && ')' as int !in version.value
             else Find(before + middle + after, Ascii(" (version ")).None?
    ensures var text := before + Note("Request ID:", id, "\n") + (middle + Note(" (version ", version, ")") + after) + ends;
            Cleaned(text) == Some(before + middle + after)
  {
    hide Stripped, ValidUtf8, LineEnds, Find, At, WithoutSpan, Ascii, Clipped, Note, FirstAfter;
    var noted := Note(" (version ", version, ")");
    var tail := middle + noted + after;
    var core := before + Note("Request ID:", id, "\n") + tail;
    ClippedOf(core, ends);
    IdIsDeleted(before, id, tail);
    Regroup(before, middle, noted, after);
    VersionIsDeleted(before + middle, version, after);
  }

  lemma Regroup(a: Bytes, b: Bytes, c: Bytes, d: Bytes)
    ensures a + (b + c + d) == (a + b) + c + d
  {
  }

  /** A Request ID line that ends the message loses its line end first, and so is kept. */
  lemma LastIdLineIsKept(before: Bytes, note: Bytes, ends: Bytes)
    requires var core := before + Ascii("Request ID:") + note;
             !LineEnds([core[|core| - 1]]) && ValidUtf8(core) && NUL !in core && Find(core, Ascii(" (version ")).None?
    requires FirstAfter(before, Ascii("Request ID:")) && '\n' as int !in note && LineEnds(ends)
    ensures Cleaned(before + Ascii("Request ID:") + note + ends) == Some(before + Ascii("Request ID:") + note)
  {
    hide Stripped, ValidUtf8, LineEnds, Find, At, WithoutSpan, Clipped;
    MarksAreLiteral();
    var core := before + Ascii("Request ID:") + note;
    ClippedOf(core, ends);
    OpenSpanStays(before, REQUEST_ID, note, NEWLINE);
    NothingToDelete(core, VERSION, CLOSE);
  }

  /** A mark without its stop behind it deletes nothing. */
  lemma OpenSpanStays(before: Bytes, mark: Bytes, note: Bytes, stop: byte)
    requires mark != [] && FirstAfter(before, mark) && stop !in mark + note
    ensures WithoutSpan(before + mark + note, mark, stop) == before + mark + note
  {
    hide Find, At;
    SpanStarts(before, mark, note);
    var s := before + mark + note;
    assert s[|before|..] == mark + note;
    FindOne(mark + note, stop);
  }

  lemma IdIsDeleted(before: Bytes, id: Option<Bytes>, tail: Bytes)
    requires if id.Some? then FirstAfter(before, Ascii("Request ID:")) && '\n' as int !in id.value
             else Find(before + tail, Ascii("Request ID:")).None?
    ensures WithoutSpan(before + Note("Request ID:", id, "\n") + tail, REQUEST_ID, NEWLINE) == before + tail
  {
    hide Find, At, WithoutSpan;
    MarksAreLiteral();
    match id
    case None => NothingToDelete(before + tail, REQUEST_ID, NEWLINE);
                 assert before + [] + tail == before + tail;
    case Some(note) =>
      SpanRemoved(before, REQUEST_ID, note, NEWLINE, tail);
      assert before + (REQUEST_ID + note + [NEWLINE]) + tail == before + REQUEST_ID + note + [NEWLINE] + tail;
  }

  lemma VersionIsDeleted(before: Bytes, version: Option<Bytes>, after: Bytes)
    requires if version.Some? then FirstAfter(before, Ascii(" (version ")) && ')' as int !in version.value
             else Find(before + after, Ascii(" (version ")).None?
    ensures WithoutSpan(before + Note(" (version ", version, ")") + after, VERSION, CLOSE) == before + after
  {
    hide Find, At, WithoutSpan;
    MarksAreLiteral();
    match version
    case None => NothingToDelete(before + after, VERSION, CLOSE);
                 assert before + [] + after == before + after;
    case Some(note) =>
      SpanRemoved(before, VERSION, note, CLOSE, after);
      assert before + (VERSION + note + [CLOSE]) + after == before + VERSION + note + [CLOSE] + after;
  }

  lemma NothingToDelete(s: Bytes, mark: Bytes, stop: byte)
    requires mark != [] && Find(s, mark).None?
    ensures WithoutSpan(s, mark, stop) == s
  {
    hide Find;
  }
}
