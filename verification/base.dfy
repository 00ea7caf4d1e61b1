/** Small shared vocabulary: optional values, results carrying the generator's
    fatal failures, and the string searches the generator performs. */
module Base {

  datatype Option<+T> = None | Some(value: T) {
    function GetOr(default: T): T {
      match this
      case Some(v) => v
      case None => default
    }
  }

  /** The ways a generation run aborts. Each is a panic in the generator:
      nothing is recovered, the whole run stops. */
  datatype Failure =
    | UnknownFieldKind      // no `prost` attribute of the field yields a kind
    | MalformedLiteral      // a `name = lit` entry whose literal text is too short to trim
    | MalformedOptionType   // an `optional` field whose type is not `…Option<T>`

  datatype Result<+T> = Ok(value: T) | Err(error: Failure)

  datatype Outcome = Pass | Fail(error: Failure)

  /** `t` occurs in `s` at position `k`. */
  ghost predicate OccursAt(s: string, t: string, k: int) {
    0 <= k && k + |t| <= |s| && s[k..k + |t|] == t
  }

  /** Substring search, as `str::contains` with a string pattern. */
  function Contains(s: string, t: string): (r: bool)
    ensures r <==> exists k :: OccursAt(s, t, k)
    decreases |s|
  {
    if |s| < |t| then
      false
    else if t <= s then
      assert OccursAt(s, t, 0);
      true
    else
      OccursShift(s, t);
      Contains(s[1..], t)
  }

  /** An occurrence of `t` that is not at the front of `s` is an occurrence in `s[1..]`. */
  lemma OccursShift(s: string, t: string)
    requires |s| >= |t| && !(t <= s)
    ensures (exists k :: OccursAt(s, t, k)) <==> (exists k :: OccursAt(s[1..], t, k))
  {
    forall k | OccursAt(s[1..], t, k) ensures OccursAt(s, t, k + 1) {
      assert s[k + 1..k + 1 + |t|] == s[1..][k..k + |t|];
    }
    assert !OccursAt(s, t, 0) by {
      assert s[0..|t|] == s[..|t|];
    }
    forall k | OccursAt(s, t, k) ensures OccursAt(s[1..], t, k - 1) {
      assert 1 <= k;
      assert s[1..][k - 1..k - 1 + |t|] == s[k..k + |t|];
    }
  }

  /** The index of the last occurrence of `c` in `s`, as `str::rfind` with a
      character pattern. `str::rfind` counts bytes and this counts characters,
      so the two indices differ when non-ASCII text comes before `c`; the text
      after that occurrence is the same either way, and only it is used here. */
  function LastIndexOf(s: string, c: char): (r: Option<nat>)
    ensures r.None? <==> c !in s
    ensures r.Some? ==> r.value < |s| && s[r.value] == c && c !in s[r.value + 1..]
  {
    if |s| == 0 then
      None
    else if s[|s| - 1] == c then
      Some(|s| - 1)
    else
      var r := LastIndexOf(s[..|s| - 1], c);
      assert s == s[..|s| - 1] + [s[|s| - 1]];
      if r.Some? then
        assert s[r.value + 1..] == s[..|s| - 1][r.value + 1..] + [s[|s| - 1]];
        r
      else
        r
  }
}
