/** The string operations the bridge takes from Go's standard library: trimming, splitting,
    joining, bytewise order and sorting, with the facts the rest of the model needs. */
module Text {

  datatype Option<+T> = None | Some(value: T)

  // ---------------------------------------------------------------- trimming

  /** unicode.IsSpace. */
  predicate IsSpace(c: char) {
    c == ' ' || '\t' <= c <= '\r' || c == '\U{85}' || c == '\U{A0}' || c == '\U{1680}' ||
    '\U{2000}' <= c <= '\U{200A}' || c == '\U{2028}' || c == '\U{2029}' || c == '\U{202F}' ||
    c == '\U{205F}' || c == '\U{3000}'
  }

  predicate Trimmed(s: string) {
    s != "" ==> !IsSpace(s[0]) && !IsSpace(s[|s| - 1])
  }

  /** strings.TrimSpace. */
  function TrimSpace(s: string): (r: string)
    ensures Trimmed(r) && |r| <= |s|
    ensures Trimmed(s) ==> r == s
    ensures r == "" <==> forall i :: 0 <= i < |s| ==> IsSpace(s[i])
  {
    if s == "" then ""
    else if IsSpace(s[0]) then TrimSpace(s[1..])
    else if IsSpace(s[|s| - 1]) then TrimSpace(s[..|s| - 1])
    else s
  }

  predicate AllSpace(s: string) { forall i :: 0 <= i < |s| ==> IsSpace(s[i]) }

  ghost predicate Around(s: string, before: string, r: string, after: string) {
    s == before + r + after && AllSpace(before) && AllSpace(after)
  }

  /** r is s without the blanks on either side, and not more. */
  ghost predicate Middle(s: string, r: string) {
    Trimmed(r) && exists before, after :: Around(s, before, r, after)
  }

  lemma AroundMore(s: string, before: string, r: string, after: string, c: char)
    requires Around(s, before, r, after) && IsSpace(c)
    ensures Around([c] + s, [c] + before, r, after) && Around(s + [c], before, r, after + [c])
  {
    assert [c] + s == [c] + before + r + after && s + [c] == before + r + (after + [c]);
  }

  /** Trimming removes blanks from the ends and nothing else. */
  lemma {:induction false} TrimIsMiddle(s: string)
    ensures Middle(s, TrimSpace(s))
    decreases |s|
  {
    hide Around, IsSpace;
    if s == "" || Trimmed(s) {
      AroundNothing(s);
    } else if IsSpace(s[0]) {
      TrimIsMiddle(s[1..]);
      var before, after :| Around(s[1..], before, TrimSpace(s), after);
      AroundMore(s[1..], before, TrimSpace(s), after, s[0]);
      assert [s[0]] + s[1..] == s;
    } else {
      var t, c := s[..|s| - 1], s[|s| - 1];
      TrimIsMiddle(t);
      var before, after :| Around(t, before, TrimSpace(s), after);
      AroundMore(t, before, TrimSpace(s), after, c);
      assert t + [c] == s;
    }
  }

  lemma AroundNothing(s: string)
    ensures Around(s, "", s, "")
  {
    assert s == "" + s + "";
  }

  predicate Blank(s: string) { TrimSpace(s) == "" }

  /** The two-argument use of firstNonEmpty, the only arity the modelled code calls. */
  function FirstNonEmpty(a: string, b: string): string {
    if !Blank(a) then a else if !Blank(b) then b else ""
  }

  // ---------------------------------------------------------------- split and join

  /** strings.Split(s, sep) for a one-character separator. */
  function Split(s: string, sep: char): (parts: seq<string>)
    ensures |parts| >= 1
  {
    if s == "" then [""]
    else
      var rest := Split(s[1..], sep);
      if s[0] == sep then [""] + rest else [[s[0]] + rest[0]] + rest[1..]
  }

  /** strings.Join. */
  function Join(parts: seq<string>, sep: string): string {
    if parts == [] then "" else if |parts| == 1 then parts[0]
    else parts[0] + sep + Join(parts[1..], sep)
  }

  /** Joining the parts gives the string back, and no part contains the separator. */
  lemma {:induction false} JoinSplit(s: string, sep: char)
    ensures Join(Split(s, sep), [sep]) == s
    ensures forall part :: part in Split(s, sep) ==> sep !in part
  {
    if s != "" {
      JoinSplit(s[1..], sep);
      var rest := Split(s[1..], sep);
      if s[0] == sep {
        JoinCons("", rest, [sep]);
        assert Split(s, sep) == [""] + rest;
        assert "" + [sep] + Join(rest, [sep]) == s;
      } else {
        JoinGrow(s[0], rest, [sep]);
        assert Split(s, sep) == [[s[0]] + rest[0]] + rest[1..];
      }
    }
  }

  /** And Split is the only way to take a string apart like that. */
  lemma {:induction false} SplitJoin(parts: seq<string>, sep: char)
    requires parts != [] && forall part :: part in parts ==> sep !in part
    ensures Split(Join(parts, [sep]), sep) == parts
    decreases |parts|, |parts[0]|
  {
    var head, rest := parts[0], parts[1..];
    assert parts == [head] + rest;
    if head != "" {
      var shorter := [head[1..]] + rest;
      assert parts[0] in parts && forall part :: part in shorter ==> sep !in part;
      assert shorter[1..] == rest && [head[0]] + shorter[0] == head && head[0] in head;
      SplitJoin(shorter, sep);
      JoinGrow(head[0], shorter, [sep]);
      SplitCons(head[0], Join(shorter, [sep]), sep);
    } else if rest != [] {
      SplitJoin(rest, sep);
      JoinCons("", rest, [sep]);
      SplitCons(sep, Join(rest, [sep]), sep);
      assert "" + [sep] + Join(rest, [sep]) == [sep] + Join(rest, [sep]);
    }
  }

  lemma SplitCons(c: char, s: string, sep: char)
    ensures var rest := Split(s, sep);
      Split([c] + s, sep) == if c == sep then [""] + rest else [[c] + rest[0]] + rest[1..]
  {
    assert ([c] + s)[1..] == s;
  }

  lemma JoinCons(head: string, rest: seq<string>, sep: string)
    requires rest != []
    ensures Join([head] + rest, sep) == head + sep + Join(rest, sep)
  {
    assert ([head] + rest)[1..] == rest;
  }

  lemma JoinGrow(c: char, parts: seq<string>, sep: string)
    requires parts != []
    ensures Join([[c] + parts[0]] + parts[1..], sep) == [c] + Join(parts, sep)
  {
    if |parts| > 1 {
      JoinCons([c] + parts[0], parts[1..], sep);
      assert [c] + parts[0] + sep + Join(parts[1..], sep) == [c] + (parts[0] + sep + Join(parts[1..], sep));
    }
  }

  // ---------------------------------------------------------------- order and sorting

  /** Go's < on strings. */
  predicate Less(a: string, b: string) {
    b != "" && (a == "" || a[0] < b[0] || (a[0] == b[0] && Less(a[1..], b[1..])))
  }

  /** a is smaller where the two first differ. */
  predicate SmallerAt(a: string, b: string, i: int) {
    0 <= i < |a| && i < |b| && a[i] < b[i] && forall j :: 0 <= j < i ==> a[j] == b[j]
  }

  /** Bytewise order: a is a proper prefix of b, or smaller where they first differ. */
  lemma {:induction false} LessIsLexicographic(a: string, b: string)
    ensures Less(a, b) <==> a < b || exists i :: SmallerAt(a, b, i)
    decreases |a|
  {
    if a != "" && b != "" {
      var x, y := a[1..], b[1..];
      if a[0] == b[0] {
        LessIsLexicographic(x, y);
        assert a < b <==> x < y by { assert a == [a[0]] + x && b == [b[0]] + y; }
        if i :| SmallerAt(x, y, i) {
          assert forall j :: 0 < j <= i ==> a[j] == x[j - 1] && b[j] == y[j - 1];
          assert SmallerAt(a, b, i + 1);
        }
        if i :| SmallerAt(a, b, i) {
          assert forall j :: 0 <= j < i ==> x[j] == a[j + 1] && y[j] == b[j + 1];
          assert SmallerAt(x, y, i - 1);
        }
      } else if a[0] < b[0] {
        assert SmallerAt(a, b, 0);
      }
    }
  }

  lemma LessIsTotal(a: string, b: string)
    ensures a == b || Less(a, b) || Less(b, a)
    ensures !(Less(a, b) && Less(b, a))
    ensures !Less(a, a)
  {
    if a != "" && b != "" && a[0] == b[0] {
      LessIsTotal(a[1..], b[1..]);
      assert a == [a[0]] + a[1..] && b == [b[0]] + b[1..];
    }
    if a != "" { LessIsTotal(a[1..], a[1..]); }
  }

  lemma LessIsTransitive(a: string, b: string, c: string)
    requires Less(a, b) && Less(b, c)
    ensures Less(a, c)
  {
    if a != "" && a[0] == b[0] && b[0] == c[0] { LessIsTransitive(a[1..], b[1..], c[1..]); }
  }

  /** Strictly increasing, hence free of duplicates. */
  predicate Ascending(s: seq<string>) {
    forall i, j :: 0 <= i < j < |s| ==> Less(s[i], s[j])
  }

  /** Insertion into a strictly increasing list; a value already present is not repeated. */
  function Insert(s: seq<string>, x: string): (r: seq<string>)
    requires Ascending(s)
    ensures Ascending(r)
    ensures forall y :: y in r <==> y in s || y == x
  {
    if s == [] then [x]
    else if x == s[0] then s
    else if Less(x, s[0]) then
      assert forall i :: 0 < i < |s| ==> Less(x, s[i]) by {
        forall i | 0 < i < |s| ensures Less(x, s[i]) { LessIsTransitive(x, s[0], s[i]); }
      }
      [x] + s
    else
      var rest := Insert(s[1..], x);
      assert Less(s[0], x) by { LessIsTotal(s[0], x); }
      assert forall y :: y in rest ==> Less(s[0], y) by {
        forall y | y in rest ensures Less(s[0], y) {
          if y != x { var i :| 0 <= i < |s[1..]| && s[1..][i] == y; }
        }
      }
      [s[0]] + rest
  }

  lemma HasElement(s: seq<string>)
    ensures s == [] || exists x :: x in s
  {
    if s != [] { assert s[0] in s; }
  }

  /** A strictly increasing list is determined by its elements, so a sorted duplicate-free slice
      does not depend on the order it was collected in. */
  lemma {:induction false} AscendingIsUnique(a: seq<string>, b: seq<string>)
    requires Ascending(a) && Ascending(b)
    requires forall x :: x in a <==> x in b
    ensures a == b
  {
    HasElement(a);
    HasElement(b);
    if a != [] {
      assert a[0] in b;
      assert b[0] in a;
      assert a[0] == b[0] by {
        var i :| 0 <= i < |b| && b[i] == a[0];
        var j :| 0 <= j < |a| && a[j] == b[0];
        LessIsTotal(a[0], b[0]);
      }
      forall x ensures x in a[1..] <==> x in b[1..] {
        LessIsTotal(a[0], a[0]);
        if x in a[1..] { var i :| 1 <= i < |a| && a[i] == x; assert x in b; assert Less(a[0], x); }
        if x in b[1..] { var i :| 1 <= i < |b| && b[i] == x; assert x in a; assert Less(b[0], x); }
      }
      AscendingIsUnique(a[1..], b[1..]);
      assert a == [a[0]] + a[1..] && b == [b[0]] + b[1..];
    }
  }

  /** sort.Strings on a slice without duplicates. */
  function Sort(s: seq<string>): (r: seq<string>)
    ensures Ascending(r)
    ensures forall x :: x in r <==> x in s
  {
    if s == [] then [] else Insert(Sort(s[1..]), s[0])
  }

  /** Its non-empty elements in order. */
  function SortNonEmpty(s: seq<string>): (r: seq<string>)
    ensures Ascending(r)
    ensures forall x :: x in r <==> x in s && x != ""
  {
    if s == [] then []
    else if s[0] == "" then SortNonEmpty(s[1..])
    else Insert(SortNonEmpty(s[1..]), s[0])
  }
}
