/**
 * The regular-expression substitutions the scraper applies to JSON text, all
 * of the form "delete one character where the characters around it say so":
 * an optional character required just before it, and an optional lookahead
 * `(?=\s*[...])` after it. `Sub` is the left-to-right scan `re.sub` performs;
 * `Deleted` is the per-character filter that says which characters go.
 */
module Rewrite {
  import opened Base

  predicate AllSpace(t: string) {
    forall i :: 0 <= i < |t| ==> IsSpace(t[i])
  }

  /** The length of a match of `\s*[closers]` at the start of `s`, if there is one. */
  function SpaceThen(s: string, closers: string): (r: Option<nat>)
    ensures r.Some? ==> 1 <= r.value <= |s| && AllSpace(s[..r.value - 1]) && s[r.value - 1] in closers
    ensures r.None? ==> forall n :: 0 <= n < |s| && AllSpace(s[..n]) ==> s[n] !in closers
    decreases |s|
  {
    if |s| == 0 then None
    else if s[0] in closers then Some(1)
    else if IsSpace(s[0]) then
      match SpaceThen(s[1..], closers)
      case None =>
        assert forall n :: 1 <= n < |s| && AllSpace(s[..n]) ==> AllSpace(s[1..][..n - 1]) by {
          forall n | 1 <= n < |s| && AllSpace(s[..n]) ensures AllSpace(s[1..][..n - 1]) {
            assert s[1..][..n - 1] == s[..n][1..];
          }
        }
        None
      case Some(n) =>
        assert s[..n] == [s[0]] + s[1..][..n - 1];
        Some(n + 1)
    else None
  }

  /**
   * The pattern `before? target (?=\s*[ahead])`, replaced by `before`: the
   * target character is deleted, the rest of the text is kept.
   */
  datatype Deletion = Deletion(before: Option<char>, target: char, ahead: Option<string>)

  /** Whether `c`, coming after `prev` and followed by `rest`, is a character the pattern deletes. */
  predicate Hit(d: Deletion, prev: Option<char>, c: char, rest: string) {
    && c == d.target
    && (d.before.None? || prev == d.before)
    && (d.ahead.None? || SpaceThen(rest, d.ahead.value).Some?)
  }

  /** `s` without the characters the pattern deletes, the others in order; `prev` is the character before `s`. */
  function Deleted(d: Deletion, s: string, prev: Option<char>): (r: string)
    ensures |r| <= |s|
    decreases |s|
  {
    if |s| == 0 then ""
    else (if Hit(d, prev, s[0], s[1..]) then "" else [s[0]]) + Deleted(d, s[1..], Some(s[0]))
  }

  /**
   * `re.sub(pattern, before, s)`: scan left to right; at a match, emit the
   * `before` character (if any) and resume after the deleted character.
   */
  function Sub(d: Deletion, s: string): string
    decreases |s|
  {
    if |s| == 0 then ""
    else if d.before.Some? then
      if |s| >= 2 && s[0] == d.before.value && Hit(d, Some(s[0]), s[1], s[2..]) then [s[0]] + Sub(d, s[2..])
      else [s[0]] + Sub(d, s[1..])
    else if Hit(d, None, s[0], s[1..]) then Sub(d, s[1..])
    else [s[0]] + Sub(d, s[1..])
  }

  /** Without a required preceding character, the filter does not depend on what came before. */
  lemma {:induction false} DeletedAnyPrev(d: Deletion, s: string, p: Option<char>, q: Option<char>)
    requires d.before.None?
    ensures Deleted(d, s, p) == Deleted(d, s, q)
  {
  }

  /**
   * The substitution deletes exactly the characters the pattern matches,
   * provided the target differs from the preceding character it requires
   * (so matches cannot overlap) and the text does not start with a target
   * whose match began before it.
   */
  lemma {:induction false} SubDeletes(d: Deletion, s: string, prev: Option<char>)
    requires d.before.Some? ==> d.target != d.before.value
    requires !(d.before.Some? && |s| > 0 && Hit(d, prev, s[0], s[1..]))
    ensures Sub(d, s) == Deleted(d, s, prev)
    decreases |s|
  {
    if |s| > 0 {
      if d.before.None? {
        SubDeletes(d, s[1..], Some(s[0]));
        if Hit(d, None, s[0], s[1..]) {
          assert Hit(d, prev, s[0], s[1..]);
        } else {
          assert !Hit(d, prev, s[0], s[1..]);
        }
      } else if |s| >= 2 && s[0] == d.before.value && Hit(d, Some(s[0]), s[1], s[2..]) {
        assert !Hit(d, prev, s[0], s[1..]);
        assert Deleted(d, s[1..], Some(s[0])) == Deleted(d, s[2..], Some(s[1]));
        SubDeletes(d, s[2..], Some(s[1]));
      } else {
        SubDeletes(d, s[1..], Some(s[0]));
      }
    }
  }

  /** Text without the target character is kept whole, whatever follows it. */
  lemma {:induction false} DeletedFree(d: Deletion, t: string, u: string, prev: Option<char>)
    requires d.target !in t
    ensures Deleted(d, t + u, prev) == t + Deleted(d, u, if |t| == 0 then prev else Some(t[|t| - 1]))
    decreases |t|
  {
    if |t| > 0 {
      assert (t + u)[0] == t[0] && (t + u)[1..] == t[1..] + u;
      assert d.target !in t[1..] by {
        forall i | 0 <= i < |t[1..]| ensures t[1..][i] != d.target {
          assert t[1..][i] == t[i + 1];
        }
      }
      DeletedFree(d, t[1..], u, Some(t[0]));
      if |t| > 1 {
        assert t[1..][|t[1..]| - 1] == t[|t| - 1];
      }
      assert t + Deleted(d, u, Some(t[|t| - 1])) == [t[0]] + (t[1..] + Deleted(d, u, Some(t[|t| - 1])));
    } else {
      assert t + u == u;
    }
  }

  /** Text without the target character is unchanged. */
  lemma {:induction false} DeletedAbsent(d: Deletion, s: string, prev: Option<char>)
    requires d.target !in s
    ensures Deleted(d, s, prev) == s
  {
    DeletedFree(d, s, "", prev);
    assert s + "" == s;
  }
}
