/** The option-list parse of the form builder:
    `[opt.strip() for opt in options_raw.split(";") if opt.strip()]`. */
module Options {

  /** Python's `str.isspace`: the characters `str.strip` removes. */
  predicate IsSpace(c: char) {
    c == ' ' || '\t' <= c <= '\r' || '\U{1C}' <= c <= '\U{1F}' || c == '\U{85}' || c == '\U{A0}' ||
    c == '\U{1680}' || '\U{2000}' <= c <= '\U{200A}' || c == '\U{2028}' || c == '\U{2029}' ||
    c == '\U{202F}' || c == '\U{205F}' || c == '\U{3000}'
  }

  /** Neither end of `s` is whitespace. */
  predicate Trimmed(s: string) {
    s == [] || (!IsSpace(s[0]) && !IsSpace(s[|s| - 1]))
  }

  /** `str.split(";")`: the fields between separators, empty ones included. */
  function Split(s: string): (fields: seq<string>)
    ensures |fields| >= 1
    ensures forall k :: 0 <= k < |fields| ==> ';' !in fields[k]
    decreases |s|
  {
    if s == [] then [""]
    else if s[0] == ';' then [""] + Split(s[1..])
    else
      var rest := Split(s[1..]);
      [[s[0]] + rest[0]] + rest[1..]
  }

  /** `";".join(fields)`, the inverse of Split. */
  function Join(fields: seq<string>): string {
    if fields == [] then ""
    else if |fields| == 1 then fields[0]
    else fields[0] + ";" + Join(fields[1..])
  }

  /** Removes the leading whitespace: what is left is a suffix of `s`
      starting with a non-space, and everything removed is whitespace. */
  function StripLeft(s: string): (r: string)
    ensures |r| <= |s| && r == s[|s| - |r|..]
    ensures forall k :: 0 <= k < |s| - |r| ==> IsSpace(s[k])
    ensures r == [] || !IsSpace(r[0])
  {
    if s != [] && IsSpace(s[0]) then StripLeft(s[1..]) else s
  }

  /** Removes the trailing whitespace: what is left is a prefix of `s`
      ending with a non-space, and everything removed is whitespace. */
  function StripRight(s: string): (r: string)
    ensures |r| <= |s| && r == s[..|r|]
    ensures forall k :: |r| <= k < |s| ==> IsSpace(s[k])
    ensures r == [] || !IsSpace(r[|r| - 1])
  {
    if s != [] && IsSpace(s[|s| - 1]) then StripRight(s[..|s| - 1]) else s
  }

  /** `str.strip()`. */
  function Strip(s: string): string {
    StripRight(StripLeft(s))
  }

  /** The number of leading whitespace characters `strip` removes. */
  function LeadingSpace(s: string): nat {
    |s| - |StripLeft(s)|
  }

  /** What `strip` keeps is the run of `s` between its leading and trailing
      whitespace, and it is trimmed; in particular it is empty exactly when
      `s` is all whitespace. */
  lemma StripKeepsMiddle(s: string)
    ensures var i, r := LeadingSpace(s), Strip(s);
      i + |r| <= |s| && r == s[i..i + |r|] &&
      (forall k :: 0 <= k < i ==> IsSpace(s[k])) &&
      (forall k :: i + |r| <= k < |s| ==> IsSpace(s[k]))
    ensures Trimmed(Strip(s))
    ensures Strip(s) == [] <==> forall k :: 0 <= k < |s| ==> IsSpace(s[k])
  {
    var l := StripLeft(s);
    var r := StripRight(l);
    var i := |s| - |l|;
    assert r == s[i..i + |r|];
    forall k | i + |r| <= k < |s|
      ensures IsSpace(s[k])
    {
      assert s[k] == l[k - i];
    }
    if r != [] {
      assert r[0] == l[0];
    }
  }

  /** Stripping a trimmed string changes nothing. */
  lemma StripTrimmed(s: string)
    requires Trimmed(s)
    ensures Strip(s) == s
  {
  }

  /** `strip` is idempotent. */
  lemma StripIdempotent(s: string)
    ensures Strip(Strip(s)) == Strip(s)
  {
    StripKeepsMiddle(s);
    StripTrimmed(Strip(s));
  }

  /** The stripped non-empty fields, in order. */
  function Clean(fields: seq<string>): (options: seq<string>)
    ensures |options| <= |fields|
    ensures forall k :: 0 <= k < |options| ==> options[k] != [] && Trimmed(options[k])
  {
    if fields == [] then []
    else
      StripKeepsMiddle(fields[0]);
      var head := Strip(fields[0]);
      (if head == [] then [] else [head]) + Clean(fields[1..])
  }

  /** `[opt.strip() for opt in raw.split(";") if opt.strip()]`: every option is
      non-empty, trimmed and free of `;`. */
  function ParseOptions(raw: string): (options: seq<string>)
    ensures forall k :: 0 <= k < |options| ==> options[k] != [] && Trimmed(options[k]) && ';' !in options[k]
  {
    var fields := Split(raw);
    CleanKeepsSeparatorFree(fields);
    Clean(fields)
  }

  /** `strip` only removes characters. */
  lemma StripNoSeparator(f: string)
    requires ';' !in f
    ensures ';' !in Strip(f)
  {
    StripKeepsMiddle(f);
    var i, r := LeadingSpace(f), Strip(f);
    assert forall k :: 0 <= k < |r| ==> r[k] == f[i + k];
  }

  lemma {:induction false} CleanKeepsSeparatorFree(fields: seq<string>)
    requires forall k :: 0 <= k < |fields| ==> ';' !in fields[k]
    ensures forall k :: 0 <= k < |Clean(fields)| ==> ';' !in Clean(fields)[k]
  {
    if fields != [] {
      var head := Strip(fields[0]);
      var rest := Clean(fields[1..]);
      CleanKeepsSeparatorFree(fields[1..]);
      StripNoSeparator(fields[0]);
      assert Clean(fields) == (if head == [] then [] else [head]) + rest;
    }
  }

  lemma {:induction false} SplitNoSeparator(a: string)
    requires ';' !in a
    ensures Split(a) == [a]
    decreases |a|
  {
    if a != [] {
      SplitNoSeparator(a[1..]);
      assert [a[0]] + a[1..] == a;
    }
  }

  lemma {:induction false} SplitAfterField(a: string, t: string)
    requires ';' !in a
    ensures Split(a + ";" + t) == [a] + Split(t)
    decreases |a|
  {
    if a == [] {
      assert a + ";" + t == [';'] + t;
      assert (a + ";" + t)[1..] == t;
    } else {
      assert (a + ";" + t)[1..] == a[1..] + ";" + t;
      SplitAfterField(a[1..], t);
      assert [a[0]] + a[1..] == a;
    }
  }

  /** Splitting the joined fields gives the fields back. */
  lemma {:induction false} SplitJoin(fields: seq<string>)
    requires |fields| >= 1
    requires forall k :: 0 <= k < |fields| ==> ';' !in fields[k]
    ensures Split(Join(fields)) == fields
  {
    if |fields| == 1 {
      SplitNoSeparator(fields[0]);
    } else {
      SplitJoin(fields[1..]);
      SplitAfterField(fields[0], Join(fields[1..]));
      assert [fields[0]] + fields[1..] == fields;
    }
  }

  /** Joining the split fields gives the string back. */
  lemma {:induction false} JoinSplit(s: string)
    ensures Join(Split(s)) == s
    decreases |s|
  {
    if s != [] {
      JoinSplit(s[1..]);
      var rest := Split(s[1..]);
      if s[0] == ';' {
        assert Join([""] + rest) == "" + ";" + Join(rest);
        assert [s[0]] + s[1..] == s;
      } else {
        var fields := [[s[0]] + rest[0]] + rest[1..];
        assert fields[1..] == rest[1..];
        if |rest| == 1 {
          assert Join(fields) == [s[0]] + rest[0];
        } else {
          assert rest == [rest[0]] + rest[1..];
          assert Join(rest) == rest[0] + ";" + Join(rest[1..]);
          assert Join(fields) == [s[0]] + rest[0] + ";" + Join(rest[1..]);
        }
        assert [s[0]] + s[1..] == s;
      }
    }
  }

  lemma {:induction false} CleanTrimmed(options: seq<string>)
    requires forall k :: 0 <= k < |options| ==> options[k] != [] && Trimmed(options[k])
    ensures Clean(options) == options
  {
    if options != [] {
      StripTrimmed(options[0]);
      CleanTrimmed(options[1..]);
      assert [options[0]] + options[1..] == options;
    }
  }

  /** Writing a list of options as `a;b;c` and parsing it gives the list back,
      whenever each option is non-empty, trimmed and free of `;`. */
  lemma ParseJoinedOptions(options: seq<string>)
    requires forall k :: 0 <= k < |options| ==> options[k] != [] && Trimmed(options[k]) && ';' !in options[k]
    ensures ParseOptions(Join(options)) == options
  {
    if options != [] {
      SplitJoin(options);
      CleanTrimmed(options);
    }
  }
}
