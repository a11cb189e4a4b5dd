/**
 * A footprint reference `Library:Footprint`: exactly one colon, with text on both
 * sides. The footprint-field rule and the footprint checker test it in two different
 * ways (counting colons, and splitting on them); both tests are proved equal to this.
 */
module FootprintRef {
  import opened Text

  /** The colon at i splits s into a non-empty library and a non-empty name, neither holding a colon. */
  predicate ColonAt(s: string, i: int) {
    0 < i < |s| - 1 && s[i] == ':' && ':' !in s[..i] && ':' !in s[i + 1..]
  }

  ghost predicate WellFormed(s: string) {
    exists i :: ColonAt(s, i)
  }

  lemma CountAround(s: string, i: int)
    requires 0 <= i < |s|
    ensures Count(s, s[i]) == Count(s[..i], s[i]) + 1 + Count(s[i + 1..], s[i])
  {
    assert s == s[..i] + [s[i]] + s[i + 1..];
    CountAppend(s[..i] + [s[i]], s[i + 1..], s[i]);
    CountAppend(s[..i], [s[i]], s[i]);
    assert Count([s[i]], s[i]) == 1 + Count([], s[i]);
  }

  /** rule 3.9's test: one colon, neither first nor last. */
  lemma ColonCountForm(s: string)
    ensures (Count(s, ':') == 1 && !StartsWith(s, ":") && !EndsWith(s, ":")) <==> WellFormed(s)
  {
    if WellFormed(s) {
      var i :| ColonAt(s, i);
      CountAround(s, i);
      CountZero(s[..i], ':');
      CountZero(s[i + 1..], ':');
      assert s[..1] == [s[0]] && s[0] != ':';
      assert s[|s| - 1..] == [s[|s| - 1]] && s[|s| - 1] != ':' by {
        assert s[|s| - 1] == s[i + 1..][|s| - 2 - i];
      }
    }
    if Count(s, ':') == 1 && !StartsWith(s, ":") && !EndsWith(s, ":") {
      CountZero(s, ':');
      var i :| 0 <= i < |s| && s[i] == ':';
      CountAround(s, i);
      CountZero(s[..i], ':');
      CountZero(s[i + 1..], ':');
      assert ColonAt(s, i);
    }
  }

  /** A well-formed reference splits on its colon into library and name. */
  lemma SplitAt(s: string, i: int)
    requires ColonAt(s, i)
    ensures Split(s, ':') == [s[..i], s[i + 1..]]
  {
    var parts := [s[..i], s[i + 1..]];
    assert Join(parts, [':']) == s[..i] + [':'] + s[i + 1..];
    assert s == s[..i] + [':'] + s[i + 1..];
    SplitJoin(parts, ':');
  }

  /** The footprint checker's test: splitting on `:` gives exactly two non-empty parts. */
  lemma SplitForm(s: string)
    ensures (|Split(s, ':')| == 2 && Split(s, ':')[0] != "" && Split(s, ':')[1] != "") <==> WellFormed(s)
  {
    if WellFormed(s) {
      var i :| ColonAt(s, i);
      SplitAt(s, i);
    }
    var parts := Split(s, ':');
    if |parts| == 2 && parts[0] != "" && parts[1] != "" {
      JoinSplit(s, ':');
      assert s == parts[0] + [':'] + parts[1];
      var i := |parts[0]|;
      assert s[..i] == parts[0] && s[i + 1..] == parts[1];
      assert ColonAt(s, i);
    }
  }
}
