/** Optional values for the source's nil pointers, results for its error returns, days and text. */
module Basics {
  datatype Option<+T> = None | Some(value: T)

  datatype Result<+T, +E> = Success(value: T) | Failure(error: E)

  // Days are counted from 0001-01-01.
  type Day = int

  function Min(a: int, b: int): int {
    if a < b then a else b
  }

  // ---------- strings.TrimSpace ----------

  // The characters with the Unicode property White_Space.
  predicate IsSpace(c: char) {
    || '\t' <= c <= '\r'
    || c == ' '
    || c == '\U{0085}'
    || c == '\U{00A0}'
    || c == '\U{1680}'
    || '\U{2000}' <= c <= '\U{200A}'
    || '\U{2028}' <= c <= '\U{2029}'
    || c == '\U{202F}'
    || c == '\U{205F}'
    || c == '\U{3000}'
  }

  // One by one, these are they.
  lemma BlankCharacters(c: char)
    ensures IsSpace(c) <==>
            c in "\t\n\U{000B}\U{000C}\r \U{0085}\U{00A0}\U{1680}\U{2000}\U{2001}\U{2002}\U{2003}\U{2004}\U{2005}"
              + "\U{2006}\U{2007}\U{2008}\U{2009}\U{200A}\U{2028}\U{2029}\U{202F}\U{205F}\U{3000}"
  {
  }

  function TrimLeft(s: string): string {
    if s != "" && IsSpace(s[0]) then TrimLeft(s[1..]) else s
  }

  function TrimRight(s: string): string {
    if s != "" && IsSpace(s[|s| - 1]) then TrimRight(s[..|s| - 1]) else s
  }

  function TrimSpace(s: string): string {
    TrimRight(TrimLeft(s))
  }

  lemma {:induction false} TrimRightKeepsFirst(s: string)
    ensures TrimRight(s) == "" || TrimRight(s)[0] == s[0]
    ensures TrimRight(TrimRight(s)) == TrimRight(s)
  {
    if s != "" && IsSpace(s[|s| - 1]) {
      TrimRightKeepsFirst(s[..|s| - 1]);
    }
  }

  lemma {:induction false} TrimLeftStops(s: string)
    ensures TrimLeft(s) == "" || !IsSpace(TrimLeft(s)[0])
  {
    if s != "" && IsSpace(s[0]) {
      TrimLeftStops(s[1..]);
    }
  }

  lemma TrimSpaceIdempotent(s: string)
    ensures TrimSpace(TrimSpace(s)) == TrimSpace(s)
  {
    TrimLeftStops(s);
    TrimRightKeepsFirst(TrimLeft(s));
  }

  // A text that starts with a printed character is not blank.
  lemma {:induction false} NotBlank(s: string)
    requires s != "" && !IsSpace(s[0])
    ensures TrimLeft(s) == s && TrimRight(s) != ""
  {
    if IsSpace(s[|s| - 1]) {
      NotBlank(s[..|s| - 1]);
    }
  }

  // A missing or blank text is no text.
  function TrimOptional(s: Option<string>): Option<string> {
    if s.None? || TrimSpace(s.value) == "" then None else Some(TrimSpace(s.value))
  }

  predicate HasText(text: Option<string>) {
    text.Some? && TrimSpace(text.value) != ""
  }

  // A text is trimmed and kept, or dropped if nothing is left of it.
  lemma TrimOptionalKeepsText(text: Option<string>)
    ensures TrimOptional(text).Some? <==> HasText(text)
    ensures HasText(text) ==> TrimOptional(text) == Some(TrimSpace(text.value))
  {
  }

  lemma TrimOptionalIdempotent(s: Option<string>)
    ensures TrimOptional(TrimOptional(s)) == TrimOptional(s)
  {
    if s.Some? {
      TrimSpaceIdempotent(s.value);
    }
  }

  // ---------- Sequences ----------

  lemma ConcatAssociative<T>(a: seq<T>, b: seq<T>, c: seq<T>)
    ensures a + (b + c) == a + b + c
  {
  }

  lemma ConcatTail<T>(a: seq<T>, b: seq<T>)
    requires a != []
    ensures (a + b)[0] == a[0]
    ensures (a + b)[1..] == a[1..] + b
  {
  }
}
