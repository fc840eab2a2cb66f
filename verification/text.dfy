/** String vocabulary shared by the model, and the semantics of the one
    regular-expression shape the plugin relies on: capture group 1 of
    `preg_match("#(m.*$)#", s)` for a literal marker `m`.

    PCRE defaults matter here: `.` matches any character except a newline, and
    `$` (no D or m modifier) matches at the end of the subject or just before
    a newline that is the subject's last character. */
module Text {
  import opened Wrappers

  predicate IsPrefix(p: string, s: string) {
    |p| <= |s| && s[..|p|] == p
  }

  predicate IsSuffix(t: string, s: string) {
    |t| <= |s| && s[|s| - |t|..] == t
  }

  /** `m` occurs in `s` at offset `i`. */
  predicate OccursAt(m: string, s: string, i: int) {
    0 <= i && i + |m| <= |s| && s[i..i + |m|] == m
  }

  predicate NoNewline(s: string) {
    forall k :: 0 <= k < |s| ==> s[k] != '\n'
  }

  /** PHP's truthiness of a string: only "" and "0" are falsy. */
  predicate Truthy(s: string) {
    s != "" && s != "0"
  }

  /** A marker usable in `(m.*$)`: a non-empty literal on one line. */
  predicate Marker(m: string) {
    |m| > 0 && NoNewline(m)
  }

  /** The last offset at which `$` can match: before a final newline, if any. */
  function LineEnd(s: string): (e: nat)
    ensures e <= |s|
    ensures NoNewline(s) ==> e == |s|
    ensures e < |s| ==> e == |s| - 1 && s[e] == '\n'
  {
    if |s| > 0 && s[|s| - 1] == '\n' then |s| - 1 else |s|
  }

  /** `(m.*$)` matches with its group starting at offset `i`: the marker is
      there, and no newline lies between it and the place `$` matches. */
  predicate TailMatchAt(m: string, s: string, i: int) {
    && OccursAt(m, s, i)
    && i + |m| <= LineEnd(s)
    && NoNewline(s[i + |m|..LineEnd(s)])
  }

  /** The leftmost offset at or after `i` where the pattern matches; the
      regex engine tries start offsets from left to right. */
  function FindTail(m: string, s: string, i: nat): (r: Option<nat>)
    decreases |s| - i
    ensures r.Some? ==> i <= r.value && TailMatchAt(m, s, r.value)
    ensures forall k :: i <= k && (r.None? || k < r.value) ==> !TailMatchAt(m, s, k)
  {
    if i + |m| > |s| then None
    else if TailMatchAt(m, s, i) then Some(i)
    else FindTail(m, s, i + 1)
  }

  /** Capture group 1 of `preg_match("#(m.*$)#", s)`, or None when the
      pattern does not match (the group is then unset). */
  function TailGroup(m: string, s: string): (r: Option<string>)
    ensures r.Some? ==> IsPrefix(m, r.value) && NoNewline(r.value[|m|..])
    ensures r.None? <==> forall k :: !TailMatchAt(m, s, k)
  {
    match FindTail(m, s, 0)
    case Some(i) => Some(s[i..LineEnd(s)])
    case None => None
  }

  /** On a single line, the pattern matches exactly where the marker occurs. */
  lemma TailMatchOnLine(m: string, s: string, i: int)
    requires NoNewline(s)
    ensures TailMatchAt(m, s, i) <==> OccursAt(m, s, i)
  {
    if OccursAt(m, s, i) {
      assert LineEnd(s) == |s|;
      var rest := s[i + |m|..];
      forall k | 0 <= k < |rest| ensures rest[k] != '\n' {
        assert rest[k] == s[i + |m| + k];
      }
    }
  }

  /** On a single line the group is the suffix from the first occurrence of
      the marker. */
  lemma TailGroupOfLine(m: string, s: string, i: nat)
    requires NoNewline(s)
    requires OccursAt(m, s, i)
    requires forall j :: 0 <= j < i ==> !OccursAt(m, s, j)
    ensures TailGroup(m, s) == Some(s[i..])
  {
    TailMatchOnLine(m, s, i);
    var r := FindTail(m, s, 0);
    if r.None? {
      assert false;
    }
    var p := r.value;
    TailMatchOnLine(m, s, p);
    if p < i {
      assert false;
    }
    assert p == i && LineEnd(s) == |s|;
    assert TailGroup(m, s) == Some(s[p..LineEnd(s)]);
    assert s[p..LineEnd(s)] == s[i..];
  }

  /** On a single line without the marker the pattern does not match. */
  lemma TailGroupAbsent(m: string, s: string)
    requires NoNewline(s)
    requires forall j :: !OccursAt(m, s, j)
    ensures TailGroup(m, s) == None
  {
    forall k ensures !TailMatchAt(m, s, k) {
      TailMatchOnLine(m, s, k);
    }
  }

  /** A match is a single line that starts with the marker. */
  lemma GroupIsLine(m: string, s: string)
    requires Marker(m)
    requires TailGroup(m, s).Some?
    ensures NoNewline(TailGroup(m, s).value)
  {
    var t := TailGroup(m, s).value;
    forall k | 0 <= k < |t| ensures t[k] != '\n' {
      if k < |m| {
        assert t[k] == m[k];
      } else {
        assert t[k] == t[|m|..][k - |m|];
      }
    }
  }

  /** Matching the group again gives the group back: the match is a fixed
      point of the extraction. */
  lemma TailGroupIdempotent(m: string, s: string)
    requires Marker(m)
    requires TailGroup(m, s).Some?
    ensures TailGroup(m, TailGroup(m, s).value) == TailGroup(m, s)
  {
    var t := TailGroup(m, s).value;
    GroupIsLine(m, s);
    TailMatchOnLine(m, t, 0);
    assert OccursAt(m, t, 0);
    assert FindTail(m, t, 0) == Some(0);
    assert t[0..LineEnd(t)] == t;
  }

  /** The group is a suffix of the subject, or of the subject without its
      final newline. */
  lemma TailGroupIsSuffix(m: string, s: string)
    requires TailGroup(m, s).Some?
    ensures var t := TailGroup(m, s).value;
      IsSuffix(t, s[..LineEnd(s)])
  {
    var i := FindTail(m, s, 0).value;
    var t := TailGroup(m, s).value;
    assert t == s[..LineEnd(s)][i..];
  }
}
