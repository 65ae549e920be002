/** The two email formats the user models check.

    StrictEmail is `re.match(r'^[a-zA-Z0-9._%+-]+@[a-zA-Z0-9.-]+\.[a-zA-Z]{2,}$', s)`
    (part3/app_old/models/user.py); LooseEmail is
    `re.compile(r"[^@]+@[^@]+\.[^@]+").match(s)` (part3/hbnb/app/models/user.py and
    part2/hbnb/app/models/user.py), which is anchored at the start only.
    Each matcher is an executable scan; a ghost predicate states what the regular
    expression means (there is a way to split the string that matches it), and a
    lemma proves the two agree. */
module Email {

  predicate IsAlpha(c: char) { 'a' <= c <= 'z' || 'A' <= c <= 'Z' }
  predicate IsAlnum(c: char) { IsAlpha(c) || '0' <= c <= '9' }
  /** [a-zA-Z0-9._%+-] */
  predicate LocalChar(c: char) { IsAlnum(c) || c == '.' || c == '_' || c == '%' || c == '+' || c == '-' }
  /** [a-zA-Z0-9.-] */
  predicate DomainChar(c: char) { IsAlnum(c) || c == '.' || c == '-' }

  /** Position of the first c in s, or |s| when there is none. */
  function IndexOf(s: string, c: char): (i: nat)
    ensures i <= |s|
    ensures i < |s| ==> s[i] == c
    ensures forall k :: 0 <= k < i ==> s[k] != c
  {
    if s == [] then 0
    else if s[0] == c then 0
    else 1 + IndexOf(s[1..], c)
  }

  /** Position of the last c in s, or -1 when there is none. */
  function LastIndexOf(s: string, c: char): (i: int)
    ensures -1 <= i < |s|
    ensures i >= 0 ==> s[i] == c
    ensures forall k :: i < k < |s| ==> s[k] != c
  {
    if s == [] then -1
    else if s[|s| - 1] == c then |s| - 1
    else LastIndexOf(s[..|s| - 1], c)
  }

  predicate AllLocal(s: string, lo: nat, hi: nat)
    requires lo <= hi <= |s|
  {
    forall k :: lo <= k < hi ==> LocalChar(s[k])
  }

  predicate AllDomain(s: string, lo: nat, hi: nat)
    requires lo <= hi <= |s|
  {
    forall k :: lo <= k < hi ==> DomainChar(s[k])
  }

  predicate AllAlpha(s: string, lo: nat, hi: nat)
    requires lo <= hi <= |s|
  {
    forall k :: lo <= k < hi ==> IsAlpha(s[k])
  }

  /** The parts of a match split at positions at ('@') and dot ('.'). */
  predicate StrictSplit(s: string, at: int, dot: int)
  {
    0 < at && at + 1 < dot && dot + 3 <= |s| && s[at] == '@' && s[dot] == '.'
    && AllLocal(s, 0, at) && AllDomain(s, at + 1, dot) && AllAlpha(s, dot + 1, |s|)
  }

  /** What the anchored regex accepts: local part, '@', domain, '.', two or more letters, end. */
  ghost predicate StrictEmailSpec(s: string)
  {
    exists at: nat, dot: nat :: StrictSplit(s, at, dot)
  }

  /** The scan: the '@' must be the first one and the '.' the last one, because
      the local part admits no '@' and the letters after the final dot admit no '.'. */
  predicate StrictEmail(s: string)
  {
    StrictSplit(s, IndexOf(s, '@'), LastIndexOf(s, '.'))
  }

  /** Any split that matches uses the first '@' and the last '.'. */
  lemma StrictSplitUnique(s: string, at: int, dot: int)
    requires StrictSplit(s, at, dot)
    ensures at == IndexOf(s, '@') && dot == LastIndexOf(s, '.')
  {
  }

  lemma StrictEmailCorrect(s: string)
    ensures StrictEmail(s) <==> StrictEmailSpec(s)
  {
    var at, dot := IndexOf(s, '@'), LastIndexOf(s, '.');
    if StrictEmail(s) {
      assert StrictSplit(s, at as nat, dot as nat);
    }
    if StrictEmailSpec(s) {
      var a: nat, d: nat :| StrictSplit(s, a, d);
      StrictSplitUnique(s, a, d);
    }
  }

  /** No '@' among s[lo..hi]. */
  predicate NoAt(s: string, lo: nat, hi: nat)
    requires lo <= hi <= |s|
  {
    forall k :: lo <= k < hi ==> s[k] != '@'
  }

  /** What the prefix regex accepts: a non-empty '@'-free part, '@', a non-empty '@'-free
      part, '.', and one more character that is not '@'; anything may follow. The '.'
      is itself not '@', so the stretch from after the '@' to one past the '.' is
      '@'-free. */
  ghost predicate LooseEmailSpec(s: string)
  {
    exists at: nat, dot: nat ::
      0 < at && at + 1 < dot && dot + 1 < |s| && s[at] == '@' && s[dot] == '.'
      && NoAt(s, 0, at) && NoAt(s, at + 1, dot + 2)
  }

  /** The scan: the first '@', then a '.' strictly inside the '@'-free stretch after it,
      with at least one character of that stretch on each side. */
  predicate LooseEmail(s: string)
  {
    var at := IndexOf(s, '@');
    if at == |s| || at == 0 then false
    else
      var next := at + 1 + IndexOf(s[at + 1..], '@');
      exists dot :: at + 1 < dot && dot + 1 < next && s[dot] == '.'
  }

  lemma LooseEmailCorrect(s: string)
    ensures LooseEmail(s) <==> LooseEmailSpec(s)
  {
    var at := IndexOf(s, '@');
    if at < |s| {
      var rest := s[at + 1..];
      var next := at + 1 + IndexOf(rest, '@');
      assert forall k :: at < k < next ==> s[k] != '@' by {
        forall k | at < k < next ensures s[k] != '@' {
          assert s[k] == rest[k - at - 1];
        }
      }
      assert next < |s| ==> s[next] == '@' by {
        if next < |s| { assert s[next] == rest[next - at - 1]; }
      }
      if LooseEmail(s) {
        var dot :| at + 1 < dot && dot + 1 < next && s[dot] == '.';
        assert NoAt(s, 0, at) && NoAt(s, at + 1, dot + 2);
      }
      if LooseEmailSpec(s) {
        var a: nat, d: nat :| 0 < a && a + 1 < d && d + 1 < |s| && s[a] == '@' && s[d] == '.'
          && NoAt(s, 0, a) && NoAt(s, a + 1, d + 2);
        assert at == a;
        assert d + 1 < next;
      }
    } else {
      assert !LooseEmailSpec(s);
    }
  }
}
