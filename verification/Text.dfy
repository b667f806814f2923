/**
  Strings as the two text parsers use them: the scripting language's white space, trimming,
  joining and splitting. A string is a sequence of characters; the code works on UTF-16 units, but
  every character that matters to the two parsers is a single unit, so the difference does not
  show. White space is the set that `trim` and the class `\s` of regular expressions agree on,
  which is larger than that of ASCII.
 */
module Text {
  import opened Options

  /** White space as `trim` and `\s` understand it. */
  predicate IsSpace(c: char) {
    || c == ' ' || '\t' <= c <= '\r' || c == '\U{A0}' || c == '\U{1680}'
    || '\U{2000}' <= c <= '\U{200A}' || c == '\U{2028}' || c == '\U{2029}'
    || c == '\U{202F}' || c == '\U{205F}' || c == '\U{3000}' || c == '\U{FEFF}'
  }

  predicate AllSpace(s: string) {
    forall i :: 0 <= i < |s| ==> IsSpace(s[i])
  }

  function TrimStart(s: string): (r: string)
    ensures |r| <= |s| && r == s[|s| - |r|..] && AllSpace(s[..|s| - |r|])
    ensures r != "" ==> !IsSpace(r[0])
  {
    if s != "" && IsSpace(s[0]) then TrimStart(s[1..]) else s
  }

  function TrimEnd(s: string): (r: string)
    ensures r <= s && AllSpace(s[|r|..])
    ensures r != "" ==> !IsSpace(r[|r| - 1])
  {
    if s != "" && IsSpace(s[|s| - 1]) then TrimEnd(s[..|s| - 1]) else s
  }

  function Trim(s: string): string {
    TrimEnd(TrimStart(s))
  }

  predicate Trimmed(s: string) {
    s == "" || (!IsSpace(s[0]) && !IsSpace(s[|s| - 1]))
  }

  lemma TrimFixed(s: string)
    ensures Trimmed(s) <==> Trim(s) == s
  {
  }

  lemma TrimIsTrimmed(s: string)
    ensures Trimmed(Trim(s)) && |Trim(s)| <= |s|
  {
  }

  lemma {:induction false} TrimStartPad(pad: string, s: string)
    requires AllSpace(pad)
    ensures TrimStart(pad + s) == TrimStart(s)
  {
    if pad == "" {
      assert pad + s == s;
    } else {
      assert (pad + s)[1..] == pad[1..] + s;
      TrimStartPad(pad[1..], s);
    }
  }

  lemma {:induction false} TrimEndPad(s: string, pad: string)
    requires AllSpace(pad)
    ensures TrimEnd(s + pad) == TrimEnd(s)
  {
    if pad == "" {
      assert s + pad == s;
    } else {
      var n := |pad| - 1;
      assert (s + pad)[..|s + pad| - 1] == s + pad[..n];
      TrimEndPad(s, pad[..n]);
    }
  }

  lemma {:induction false} TrimEndTail(s: string, t: string)
    requires t != "" && !IsSpace(t[|t| - 1])
    ensures TrimEnd(s + t) == s + t
  {
  }

  function IndexOf(s: string, c: char): (r: Option<nat>)
    ensures r.None? <==> c !in s
    ensures r.Some? ==> r.value < |s| && s[r.value] == c && forall k :: 0 <= k < r.value ==> s[k] != c
  {
    if s == "" then None
    else if s[0] == c then Some(0)
    else
      var rest := IndexOf(s[1..], c);
      if rest.Some? then Some(rest.value + 1) else None
  }

  lemma IndexOfSplit(u: string, c: char, t: string)
    requires c !in u
    ensures IndexOf(u + [c] + t, c) == Some(|u|)
    ensures (u + [c] + t)[..|u|] == u && (u + [c] + t)[|u| + 1..] == t
  {
    hide IndexOf;
    var s := u + [c] + t;
    assert s[|u|] == c;
    forall k | 0 <= k < |u| ensures s[k] != c {
      assert s[k] == u[k];
    }
  }

  function Join(parts: seq<string>, separator: char): string {
    if parts == [] then "" else if |parts| == 1 then parts[0]
    else parts[0] + [separator] + Join(parts[1..], separator)
  }

  function Split(s: string, separator: char): (parts: seq<string>)
    ensures parts != []
    decreases |s|
  {
    var i := IndexOf(s, separator);
    if i.None? then [s] else [s[..i.value]] + Split(s[i.value + 1..], separator)
  }

  lemma SplitFirst(u: string, separator: char, t: string)
    requires separator !in u
    ensures Split(u, separator) == [u]
    ensures Split(u + [separator] + t, separator) == [u] + Split(t, separator)
  {
    IndexOfSplit(u, separator, t);
  }

  lemma {:induction false} SplitJoin(parts: seq<string>, separator: char)
    requires parts != [] && forall p :: p in parts ==> separator !in p
    ensures Split(Join(parts, separator), separator) == parts
  {
    assert parts[0] in parts;
    if |parts| == 1 {
      SplitFirst(parts[0], separator, "");
    } else {
      SplitJoin(parts[1..], separator);
      SplitFirst(parts[0], separator, Join(parts[1..], separator));
    }
  }

  lemma {:induction false} JoinAppend(parts: seq<string>, last: string, separator: char)
    ensures Join(parts + [last], separator) == if parts == [] then last else Join(parts, separator) + [separator] + last
  {
    if |parts| <= 1 {
      assert |parts| == 1 ==> (parts + [last])[1..] == [last];
    } else {
      assert (parts + [last])[1..] == parts[1..] + [last];
      JoinAppend(parts[1..], last, separator);
    }
  }
}
