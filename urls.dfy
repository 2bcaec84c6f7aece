/** `_domain` (main.py:103-107): the network location of a URL with every
    "www." removed, or "" when the URL cannot be split. The URL split
    follows `urllib.parse.urlsplit` for the parts that decide the netloc. */
module Urls {
  import opened Wrappers

  /** Index of the first `c` in `s`, or `|s|` when there is none. */
  function IndexOf(s: string, c: char): (i: nat)
    ensures i <= |s|
    ensures i < |s| ==> s[i] == c
    ensures forall k :: 0 <= k < i ==> s[k] != c
  {
    if s == [] then 0
    else if s[0] == c then 0
    else 1 + IndexOf(s[1..], c)
  }

  predicate IsNetlocEnd(c: char)
  {
    c == '/' || c == '?' || c == '#'
  }

  /** Index of the first '/', '?' or '#' in `s`, or `|s|`. */
  function NetlocEnd(s: string): (i: nat)
    ensures i <= |s|
    ensures i < |s| ==> IsNetlocEnd(s[i])
    ensures forall k :: 0 <= k < i ==> !IsNetlocEnd(s[k])
  {
    if s == [] then 0
    else if IsNetlocEnd(s[0]) then 0
    else 1 + NetlocEnd(s[1..])
  }

  predicate IsAsciiLetter(c: char)
  {
    ('a' <= c <= 'z') || ('A' <= c <= 'Z')
  }

  /** The characters `urlsplit` accepts in a scheme. */
  predicate IsSchemeChar(c: char)
  {
    IsAsciiLetter(c) || ('0' <= c <= '9') || c == '+' || c == '-' || c == '.'
  }

  /** `url[..i]` is a scheme that `urlsplit` takes off: `i` is the index of
      a ':' and everything before it is a scheme character, starting with a
      letter. */
  predicate SchemeEnd(url: string, i: int)
  {
    0 < i < |url| && url[i] == ':' && IsAsciiLetter(url[0])
    && forall k :: 0 <= k < i ==> IsSchemeChar(url[k])
  }

  /** A scheme ends at the first ':' of the URL. */
  lemma SchemeEndIsFirstColon(url: string, i: int)
    requires SchemeEnd(url, i)
    ensures i == IndexOf(url, ':')
  {
    var c := IndexOf(url, ':');
    if c < i {
      assert IsSchemeChar(url[c]);
    }
  }

  /** What `urlsplit` goes on parsing once it has taken off the scheme: the
      text after the first ':' when everything before it is a scheme that
      starts with a letter, and the whole URL otherwise. */
  function AfterScheme(url: string): (rest: string)
    ensures forall i :: SchemeEnd(url, i) ==> rest == url[i + 1..]
    ensures (forall i :: !SchemeEnd(url, i)) ==> rest == url
  {
    var i := IndexOf(url, ':');
    assert forall j :: SchemeEnd(url, j) ==> j == i by {
      forall j | SchemeEnd(url, j) {
        SchemeEndIsFirstColon(url, j);
      }
    }
    if SchemeEnd(url, i) then url[i + 1..] else url
  }

  /** The URL has an authority part: after the scheme it goes on with "//". */
  predicate HasAuthority(rest: string)
  {
    |rest| >= 2 && rest[0] == '/' && rest[1] == '/'
  }

  /** `n` is the netloc of the text `t` that follows "//": the longest
      prefix of `t` without '/', '?' or '#'. */
  predicate NetlocSpan(t: string, n: string)
  {
    && n <= t
    && (forall k :: 0 <= k < |n| ==> !IsNetlocEnd(n[k]))
    && (|n| == |t| || IsNetlocEnd(t[|n|]))
  }

  /** A text has one netloc. */
  lemma NetlocSpanUnique(t: string, n: string, m: string)
    requires NetlocSpan(t, n) && NetlocSpan(t, m)
    ensures n == m
  {
    assert |n| == |m|;
  }

  predicate Unbalanced(n: string)
  {
    ('[' in n) != (']' in n)
  }

  /** The `netloc` of `urlsplit(url)`: after "//", everything up to the first
      '/', '?' or '#'; "" when there is no "//". `urlsplit` raises for a
      netloc with one square bracket but not the other: `None` here. */
  function Netloc(url: string): (r: Option<string>)
    ensures !HasAuthority(AfterScheme(url)) ==> r == Some("")
    ensures HasAuthority(AfterScheme(url)) && r.Some? ==> NetlocSpan(AfterScheme(url)[2..], r.value)
    ensures HasAuthority(AfterScheme(url)) ==>
      forall n :: NetlocSpan(AfterScheme(url)[2..], n) ==> (r.None? <==> Unbalanced(n))
    ensures r.Some? ==> !Unbalanced(r.value)
  {
    var rest := AfterScheme(url);
    if HasAuthority(rest) then
      var tail := rest[2..];
      var n := tail[..NetlocEnd(tail)];
      assert NetlocSpan(tail, n);
      assert forall m :: NetlocSpan(tail, m) ==> m == n by {
        forall m | NetlocSpan(tail, m) ensures m == n {
          NetlocSpanUnique(tail, n, m);
        }
      }
      if Unbalanced(n) then None else Some(n)
    else
      Some("")
  }

  /** "www." starts at index `i` of `s`. */
  predicate WwwAt(s: string, i: int)
  {
    0 <= i && i + 4 <= |s| && s[i] == 'w' && s[i + 1] == 'w' && s[i + 2] == 'w' && s[i + 3] == '.'
  }

  ghost predicate ContainsWww(s: string)
  {
    exists i :: WwwAt(s, i)
  }

  /** `s.replace("www.", "")`: scan left to right, dropping each
      non-overlapping occurrence of "www.". */
  function RemoveWww(s: string): (r: string)
    ensures |r| <= |s|
  {
    if |s| < 4 then s
    else if WwwAt(s, 0) then RemoveWww(s[4..])
    else [s[0]] + RemoveWww(s[1..])
  }

  /** Removing "www." leaves a string as it was exactly when it holds no
      "www.", and makes it strictly shorter otherwise. */
  lemma {:induction false} RemoveWwwUnchanged(s: string)
    ensures RemoveWww(s) == s <==> !ContainsWww(s)
    ensures ContainsWww(s) ==> |RemoveWww(s)| < |s|
  {
    if |s| < 4 {
      assert forall i :: !WwwAt(s, i);
    } else if WwwAt(s, 0) {
    } else {
      RemoveWwwUnchanged(s[1..]);
      if ContainsWww(s) {
        var i :| WwwAt(s, i);
        assert WwwAt(s[1..], i - 1);
      } else {
        assert forall i :: WwwAt(s[1..], i) ==> WwwAt(s, i + 1);
        assert s == [s[0]] + s[1..];
      }
    }
  }

  /** The scan of `str.replace`: everything before the first "www." is
      kept, that occurrence is dropped, and the scan goes on after it. With
      `RemoveWwwUnchanged` for a text without "www.", this fixes the result
      on every input. */
  lemma {:induction false} RemoveWwwFirst(s: string, i: nat)
    requires WwwAt(s, i)
    requires forall j :: 0 <= j < i ==> !WwwAt(s, j)
    ensures RemoveWww(s) == s[..i] + RemoveWww(s[i + 4..])
  {
    if i == 0 {
      assert s[..0] == [];
    } else {
      var t := s[1..];
      assert RemoveWww(t) == t[..i - 1] + RemoveWww(t[i - 1 + 4..]) by {
        assert WwwAt(t, i - 1) by {
          assert t[i - 1] == s[i] && t[i] == s[i + 1] && t[i + 1] == s[i + 2] && t[i + 2] == s[i + 3];
        }
        forall j | 0 <= j < i - 1 ensures !WwwAt(t, j) {
          assert !WwwAt(s, j + 1);
        }
        RemoveWwwFirst(t, i - 1);
      }
      calc {
        RemoveWww(s);
        == { RemoveWwwSkip(s); }
        [s[0]] + RemoveWww(t);
        ==
        [s[0]] + (t[..i - 1] + RemoveWww(t[i - 1 + 4..]));
        == { assert t[i - 1 + 4..] == s[i + 4..]; }
        ([s[0]] + t[..i - 1]) + RemoveWww(s[i + 4..]);
        == { assert s[..i] == [s[0]] + t[..i - 1]; }
        s[..i] + RemoveWww(s[i + 4..]);
      }
    }
  }

  /** A character that does not start "www." is kept. */
  lemma RemoveWwwSkip(s: string)
    requires |s| >= 4 && !WwwAt(s, 0)
    ensures RemoveWww(s) == [s[0]] + RemoveWww(s[1..])
  {
  }

  /** A leading "www." disappears: `"www.x.com"` gives `"x.com"`. */
  lemma RemoveLeadingWww(t: string)
    ensures RemoveWww("www." + t) == RemoveWww(t)
  {
    assert WwwAt("www." + t, 0);
    assert ("www." + t)[4..] == t;
  }

  /** `_domain(url)`. */
  function Domain(url: string): string
  {
    match Netloc(url)
    case None => ""
    case Some(n) => RemoveWww(n)
  }

  /** `_domain` gives "" when the URL cannot be split, and otherwise the
      netloc with "www." taken out: never longer, unchanged when it holds no
      "www.", strictly shorter when it does; and when it does, everything
      before the first "www." is kept and the scan goes on after it. */
  lemma DomainOfNetloc(url: string)
    ensures Netloc(url).None? ==> Domain(url) == ""
    ensures Netloc(url).Some? ==> |Domain(url)| <= |Netloc(url).value|
    ensures Netloc(url).Some? && !ContainsWww(Netloc(url).value) ==> Domain(url) == Netloc(url).value
    ensures Netloc(url).Some? && ContainsWww(Netloc(url).value) ==> |Domain(url)| < |Netloc(url).value|
    ensures Netloc(url).Some? ==>
      forall i :: WwwAt(Netloc(url).value, i) && (forall j :: 0 <= j < i ==> !WwwAt(Netloc(url).value, j)) ==>
        Domain(url) == Netloc(url).value[..i] + RemoveWww(Netloc(url).value[i + 4..])
  {
    if Netloc(url).Some? {
      var n := Netloc(url).value;
      RemoveWwwUnchanged(n);
      forall i | WwwAt(n, i) && (forall j :: 0 <= j < i ==> !WwwAt(n, j))
        ensures Domain(url) == n[..i] + RemoveWww(n[i + 4..])
      {
        RemoveWwwFirst(n, i);
      }
    }
  }
}
