/** String predicates used by the search handlers. */
module Text {
  import opened Outcomes

  /** A query parameter is usable when it is truthy in JavaScript:
      present and not the empty string (`!req.query.searchterm` fails otherwise). */
  predicate IsPresent(term: Option<string>)
  {
    term.Some? && term.value != ""
  }

  /** `t` occurs in `s` starting at index `i`. */
  ghost predicate OccursAt(s: string, t: string, i: int)
  {
    0 <= i && i + |t| <= |s| && s[i..i + |t|] == t
  }

  /** `s` contains `t` as a contiguous substring: the `Op.substring`
      condition `LIKE '%t%'`, read as a plain substring test. */
  function Contains(s: string, t: string): (b: bool)
    ensures b <==> exists i :: OccursAt(s, t, i)
    decreases |s|
  {
    OccurrenceShift(s, t);
    if |t| <= |s| && s[..|t|] == t then true
    else if |s| == 0 then false
    else Contains(s[1..], t)
  }

  /** An occurrence is either at the front or an occurrence in the tail. */
  lemma OccurrenceShift(s: string, t: string)
    ensures (exists i :: OccursAt(s, t, i)) <==>
            (|t| <= |s| && s[..|t|] == t) || (|s| > 0 && exists i :: OccursAt(s[1..], t, i))
  {
    if |t| <= |s| && s[..|t|] == t {
      assert OccursAt(s, t, 0);
    }
    if |s| > 0 && exists i :: OccursAt(s[1..], t, i) {
      var i :| OccursAt(s[1..], t, i);
      assert s[i + 1..i + 1 + |t|] == s[1..][i..i + |t|];
      assert OccursAt(s, t, i + 1);
    }
    if exists i :: OccursAt(s, t, i) {
      var i :| OccursAt(s, t, i);
      if i > 0 {
        assert s[1..][i - 1..i - 1 + |t|] == s[i..i + |t|];
        assert OccursAt(s[1..], t, i - 1);
      }
    }
  }
}
