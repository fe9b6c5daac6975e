/** The few C string routines the hooks and the JNI dispatcher rely on.
    A C string is modelled by its characters up to (not including) the
    terminating NUL. */
module CStrings {

  datatype Option<T> = None | Some(value: T)

  /** `t` occurs in `s` starting at index `i`. */
  ghost predicate OccursAt(s: string, t: string, i: int)
  {
    0 <= i && i + |t| <= |s| && s[i..i + |t|] == t
  }

  /** `strstr(s, t) != NULL`: scans `s` from the left for an occurrence of `t`. */
  function Contains(s: string, t: string): bool
    decreases |s|
  {
    if |t| > |s| then false
    else if s[..|t|] == t then true
    else Contains(s[1..], t)
  }

  /** strstr finds `t` exactly when `t` occurs somewhere in `s`, not only at its start. */
  lemma {:induction false} ContainsIff(s: string, t: string)
    ensures Contains(s, t) <==> exists i :: OccursAt(s, t, i)
    decreases |s|
  {
    if |t| > |s| {
    } else if s[..|t|] == t {
      assert OccursAt(s, t, 0);
    } else {
      ContainsIff(s[1..], t);
      if Contains(s, t) {
        var i :| OccursAt(s[1..], t, i);
        assert s[1..][i..i + |t|] == s[i + 1..i + 1 + |t|];
        assert OccursAt(s, t, i + 1);
      } else {
        forall i | OccursAt(s, t, i)
          ensures false
        {
          assert i != 0;
          assert s[1..][i - 1..i - 1 + |t|] == s[i..i + |t|];
          assert OccursAt(s[1..], t, i - 1);
        }
      }
    }
  }

  /** A prefix of a string is found in it. */
  lemma ContainsPrefix(s: string, t: string)
    requires |t| <= |s| && s[..|t|] == t
    ensures Contains(s, t)
  {
  }

  ghost predicate AllSpaces(s: string)
  {
    forall k :: 0 <= k < |s| ==> s[k] == ' '
  }

  /** Length of the run of spaces at the start of `s`. */
  function SpanSpaces(s: string): (n: nat)
    ensures n <= |s| && AllSpaces(s[..n])
    ensures n < |s| ==> s[n] != ' '
  {
    if s != [] && s[0] == ' ' then
      var n := 1 + SpanSpaces(s[1..]);
      assert s[..n] == [' '] + s[1..][..n - 1];
      n
    else 0
  }

  /** Length of the run of non-spaces at the start of `s`. */
  function SpanToken(s: string): (n: nat)
    ensures n <= |s| && ' ' !in s[..n]
    ensures n < |s| ==> s[n] == ' '
  {
    if s != [] && s[0] != ' ' then
      var n := 1 + SpanToken(s[1..]);
      assert s[..n] == [s[0]] + s[1..][..n - 1];
      n
    else 0
  }

  /** `strtok(s, " ")`: skip the leading spaces, return the following run of
      non-spaces (or NULL when only spaces remain) and the position where the
      next `strtok(NULL, " ")` resumes: just past the space that ended the
      token, or the empty rest when the token ran to the end of `s`. */
  function Strtok(s: string): (r: (Option<string>, string))
    ensures r.0.None? <==> AllSpaces(s)
    ensures r.0.None? ==> r.1 == []
    ensures r.0.Some? ==> r.0.value != [] && ' ' !in r.0.value
    ensures r.0.Some? ==>
              exists b :: (0 <= b <= |s| && AllSpaces(s[..b]) &&
                           ((s[b..] == r.0.value && r.1 == []) ||
                            s[b..] == r.0.value + " " + r.1))
  {
    var b := SpanSpaces(s);
    var n := SpanToken(s[b..]);
    if n == 0 then
      assert b == |s|;
      assert s[..b] == s;
      (None, [])
    else
      var tok := s[b..b + n];
      assert tok == s[b..][..n];
      assert s[b] != ' ' && s[b] == tok[0];
      var rest := if b + n < |s| then s[b + n + 1..] else [];
      if b + n < |s| then
        assert s[b..] == tok + " " + rest by {
          assert s[b + n] == s[b..][n] == ' ';
          assert s[b..] == s[b..b + n] + [s[b + n]] + s[b + n + 1..];
        }
        (Some(tok), rest)
      else
        assert s[b..] == tok;
        (Some(tok), rest)
  }
}
