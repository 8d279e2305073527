/** `ini.unsafe` on a value that is not quoted: trim it, walk it undoing the
    escapes `\\`, `\;` and `\#`, stop at the first unescaped `;` or `#` (the
    start of an inline comment), and trim what is left. */
module IniText {

  /** The characters `String.prototype.trim` removes: white space and line
      terminators. */
  predicate IsJsSpace(c: char) {
    || c == '\t' || c == '\n' || c == '\U{B}' || c == '\U{C}' || c == '\r' || c == ' '
    || c == '\U{A0}' || c == '\U{1680}' || '\U{2000}' <= c <= '\U{200A}'
    || c == '\U{2028}' || c == '\U{2029}' || c == '\U{202F}' || c == '\U{205F}' || c == '\U{3000}'
    || c == '\U{FEFF}'
  }

  function TrimStart(s: string): (r: string)
    ensures |r| <= |s| && r == s[|s| - |r|..]
    ensures r == [] || !IsJsSpace(r[0])
    ensures forall k :: 0 <= k < |s| - |r| ==> IsJsSpace(s[k])
    decreases |s|
  {
    if s == [] || !IsJsSpace(s[0]) then s
    else
      var r := TrimStart(s[1..]);
      assert forall k :: 1 <= k < |s| ==> s[1..][k - 1] == s[k];
      r
  }

  function TrimEnd(s: string): (r: string)
    ensures |r| <= |s| && r == s[..|r|]
    ensures r == [] || !IsJsSpace(r[|r| - 1])
    ensures forall k :: |r| <= k < |s| ==> IsJsSpace(s[k])
    decreases |s|
  {
    if s == [] || !IsJsSpace(s[|s| - 1]) then s
    else TrimEnd(s[..|s| - 1])
  }

  function Trim(s: string): string {
    TrimEnd(TrimStart(s))
  }

  /** A character the walk treats specially. */
  predicate IsSpecial(c: char) {
    c == ';' || c == '#' || c == '\\'
  }

  /** A value the walk passes through untouched. */
  predicate Plain(s: string) {
    forall k :: 0 <= k < |s| ==> !IsSpecial(s[k])
  }

  lemma PlainConcat(a: string, b: string)
    requires Plain(a) && Plain(b)
    ensures Plain(a + b)
  {
    assert forall k :: |a| <= k < |a + b| ==> (a + b)[k] == b[k - |a|];
  }

  /** The walk over the value; `esc` says the previous character was an
      unescaped backslash. An escape of anything but `\`, `;` or `#` keeps
      its backslash, and a backslash at the very end is kept. */
  function Unescape(s: string, esc: bool): string
    decreases |s|
  {
    if s == [] then (if esc then "\\" else "")
    else if esc then
      (if IsSpecial(s[0]) then [s[0]] else ['\\', s[0]]) + Unescape(s[1..], false)
    else if s[0] == ';' || s[0] == '#' then ""
    else if s[0] == '\\' then Unescape(s[1..], true)
    else [s[0]] + Unescape(s[1..], false)
  }

  /** `ini.unsafe` on a value whose trimmed form is not quoted. */
  function Unsafe(s: string): string {
    Trim(Unescape(Trim(s), false))
  }

  /** A value without special characters walks to itself. */
  lemma {:induction false} UnescapePlain(s: string)
    requires Plain(s)
    ensures Unescape(s, false) == s
    decreases |s|
  {
    if s != [] {
      assert forall k :: 0 <= k < |s| - 1 ==> s[1..][k] == s[k + 1];
      UnescapePlain(s[1..]);
    }
  }

  /** The walk over a plain front and then a back is the front followed by
      the walk over the back. */
  lemma {:induction false} UnescapeAfterPlain(front: string, back: string)
    requires Plain(front)
    ensures Unescape(front + back, false) == front + Unescape(back, false)
    decreases |front|
  {
    if front == [] {
      assert front + back == back;
    } else {
      assert (front + back)[1..] == front[1..] + back;
      assert forall k :: 0 <= k < |front| - 1 ==> front[1..][k] == front[k + 1];
      UnescapeAfterPlain(front[1..], back);
      assert (front + back)[0] == front[0] && !IsSpecial(front[0]);
      assert [front[0]] + (front[1..] + Unescape(back, false)) == front + Unescape(back, false);
    }
  }

  /** A string that neither starts nor ends with white space is its own
      trim. */
  lemma TrimUntouched(s: string)
    requires |s| > 0 && !IsJsSpace(s[0]) && !IsJsSpace(s[|s| - 1])
    ensures Trim(s) == s
  {
  }

  /** An unescaped `;` or `#` ends the value: what follows it is dropped. */
  lemma {:induction false} UnescapeCutsAtComment(front: string, c: char, back: string)
    requires Plain(front)
    requires c == ';' || c == '#'
    ensures Unescape(front + [c] + back, false) == front
  {
    UnescapeAfterPlain(front, [c] + back);
    assert front + [c] + back == front + ([c] + back);
  }

  /** A plain value that starts and ends with something other than white
      space is its own `unsafe` form. */
  lemma UnsafeOfPlain(s: string)
    requires Plain(s)
    requires |s| > 0 && !IsJsSpace(s[0]) && !IsJsSpace(s[|s| - 1])
    ensures Unsafe(s) == s
  {
    TrimUntouched(s);
    UnescapePlain(s);
  }

  /** A plain middle between a plain head and a plain tail, which start and
      end the value with something other than white space, passes through
      `unsafe` untouched. */
  lemma UnsafeOfFramedPlain(head: string, middle: string, tail: string)
    requires Plain(head) && Plain(middle) && Plain(tail)
    requires |head| > 0 && !IsJsSpace(head[0])
    requires |tail| > 0 && !IsJsSpace(tail[|tail| - 1])
    ensures Unsafe(head + middle + tail) == head + middle + tail
  {
    PlainConcat(head, middle);
    PlainConcat(head + middle, tail);
    var s := head + middle + tail;
    assert s[0] == head[0] && s[|s| - 1] == tail[|tail| - 1];
    UnsafeOfPlain(s);
  }

  /** Between a head that does not start with white space and a tail that
      does not end with it, an unescaped `;` or `#` after a plain front
      leaves the head and the front, with trailing white space trimmed. */
  lemma UnsafeOfFramedCut(head: string, front: string, c: char, back: string, tail: string)
    requires Plain(head) && Plain(front)
    requires |head| > 0 && !IsJsSpace(head[0])
    requires |tail| > 0 && !IsJsSpace(tail[|tail| - 1])
    requires c == ';' || c == '#'
    ensures Unsafe(head + (front + [c] + back) + tail) == TrimEnd(head + front)
  {
    var s := head + (front + [c] + back) + tail;
    var kept := head + front;
    assert s == kept + [c] + (back + tail);
    assert s[0] == head[0] && s[|s| - 1] == tail[|tail| - 1];
    TrimUntouched(s);
    PlainConcat(head, front);
    UnescapeCutsAtComment(kept, c, back + tail);
    assert kept[0] == head[0];
    assert TrimStart(kept) == kept;
  }
}
