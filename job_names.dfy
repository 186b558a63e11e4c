/** Transcription job names, shared by both job-submitting handlers: the object key
    with every maximal run of characters outside `[A-Za-z0-9_.-]` replaced by one `_`
    (`re.sub(r'[^a-zA-Z0-9_\-.]+', '_', key)`), then `-` and a fresh uuid. */
module JobNames {

  /** A character the job-name pattern leaves alone. */
  predicate Allowed(c: char)
  {
    'a' <= c <= 'z' || 'A' <= c <= 'Z' || '0' <= c <= '9' || c == '_' || c == '-' || c == '.'
  }

  predicate AllAllowed(s: string)
  {
    forall i :: 0 <= i < |s| ==> Allowed(s[i])
  }

  /** The substitution, character by character from the left: an allowed character is
      copied; a character outside the set starts a run that becomes one `_`, unless the
      character before it already belongs to that run. */
  function Sanitize(s: string): (r: string)
    ensures AllAllowed(r)
    ensures |r| <= |s|
    ensures r == [] <==> s == []
  {
    if s == [] then []
    else
      var front := s[..|s| - 1];
      var c := s[|s| - 1];
      var f := Sanitize(front);
      if Allowed(c) then f + [c]
      else if front != [] && !Allowed(front[|front| - 1]) then f
      else f + ['_']
  }

  /** An allowed character is copied. */
  lemma SanitizeSnocAllowed(s: string, c: char)
    requires Allowed(c)
    ensures Sanitize(s + [c]) == Sanitize(s) + [c]
  {
    assert (s + [c])[..|s|] == s;
  }

  /** A run of characters outside the set, after an allowed character or at the start,
      becomes exactly one `_`. */
  lemma {:induction false} RunBecomesOneUnderscore(s: string, run: string)
    requires s == [] || Allowed(s[|s| - 1])
    requires run != [] && forall i :: 0 <= i < |run| ==> !Allowed(run[i])
    ensures Sanitize(s + run) == Sanitize(s) + "_"
    decreases |run|
  {
    var t := s + run;
    assert t[|t| - 1] == run[|run| - 1] && !Allowed(t[|t| - 1]);
    if |run| == 1 {
      assert t[..|t| - 1] == s;
    } else {
      var front := run[..|run| - 1];
      RunBecomesOneUnderscore(s, front);
      assert t[..|t| - 1] == s + front;
      assert (s + front)[|s + front| - 1] == front[|front| - 1] && !Allowed(front[|front| - 1]);
      assert Sanitize(t) == Sanitize(s + front);
    }
  }

  /** A key made of allowed characters only is left as it is. */
  lemma {:induction false} SanitizeAllowedIsIdentity(s: string)
    requires AllAllowed(s)
    ensures Sanitize(s) == s
    decreases |s|
  {
    if s != [] {
      var front := s[..|s| - 1];
      assert AllAllowed(front) by {
        assert forall i :: 0 <= i < |front| ==> front[i] == s[i];
      }
      SanitizeAllowedIsIdentity(front);
      assert front + [s[|s| - 1]] == s;
    }
  }

  /** Sanitising twice is sanitising once. */
  lemma SanitizeIdempotent(s: string)
    ensures Sanitize(Sanitize(s)) == Sanitize(s)
  {
    SanitizeAllowedIsIdentity(Sanitize(s));
  }

  /** The letters, digits, dots and dashes of a string, in order: what sanitising
      cannot add or remove. */
  function Kept(s: string): (r: string)
    ensures |r| <= |s|
  {
    if s == [] then []
    else
      var c := s[|s| - 1];
      Kept(s[..|s| - 1]) + (if Allowed(c) && c != '_' then [c] else [])
  }

  lemma {:induction false} KeptAppend(a: string, b: string)
    ensures Kept(a + b) == Kept(a) + Kept(b)
    decreases |b|
  {
    if b == [] {
      assert a + b == a;
    } else {
      assert (a + b)[..|a + b| - 1] == a + b[..|b| - 1];
      assert (a + b)[|a + b| - 1] == b[|b| - 1];
      KeptAppend(a, b[..|b| - 1]);
    }
  }

  /** Every allowed character of the key other than `_` is kept, in order, and no other
      such character appears. */
  lemma {:induction false} SanitizeKeeps(s: string)
    ensures Kept(Sanitize(s)) == Kept(s)
    decreases |s|
  {
    if s != [] {
      var front := s[..|s| - 1];
      var c := s[|s| - 1];
      SanitizeKeeps(front);
      var f := Sanitize(front);
      if Allowed(c) {
        KeptAppend(f, [c]);
        assert [c][..0] == [];
      } else if front != [] && !Allowed(front[|front| - 1]) {
      } else {
        KeptAppend(f, ['_']);
        assert ['_'][..0] == [];
      }
    }
  }

  /** A space and a run of slashes and spaces each become one `_`. */
  lemma SanitizeExample()
    ensures Sanitize("a b") == "a_b"
    ensures Sanitize("a / b") == "a_b"
  {
    RunBecomesOneUnderscore("a", " ");
    assert "a" + " " == "a ";
    SanitizeSnocAllowed("a ", 'b');
    assert "a " + ['b'] == "a b";
    assert Sanitize("a") == "a" by {
      SanitizeSnocAllowed([], 'a');
      assert [] + ['a'] == "a";
    }
    RunBecomesOneUnderscore("a", " / ");
    assert "a" + " / " == "a / ";
    SanitizeSnocAllowed("a / ", 'b');
    assert "a / " + ['b'] == "a / b";
  }

  /** The job name: the sanitised key, `-`, and the uuid. */
  function JobName(key: string, uuid: string): string
  {
    Sanitize(key) + "-" + uuid
  }

  /** The job name starts with the sanitised key followed by `-`, ends with the uuid,
      and is made of allowed characters whenever the uuid is. */
  lemma JobNameSpec(key: string, uuid: string)
    ensures var name := JobName(key, uuid);
      && name[..|Sanitize(key)|] == Sanitize(key)
      && name[|Sanitize(key)|] == '-'
      && name[|Sanitize(key)| + 1..] == uuid
      && (AllAllowed(uuid) ==> AllAllowed(name))
  {
    var name := JobName(key, uuid);
    var k := |Sanitize(key)|;
    assert forall i :: 0 <= i < k ==> name[i] == Sanitize(key)[i];
    assert forall i :: k < i < |name| ==> name[i] == uuid[i - k - 1];
  }
}
