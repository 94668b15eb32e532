/**
 * The string primitives the source relies on: `toLowerCase`, `includes`, `trim`,
 * and the ", "-separated `join` / `split` used by the admin form.
 * Case folding and the whitespace set are the ASCII parts of what JavaScript does.
 */
module Text {

  // ---------------------------------------------------------------------------
  // Case folding
  // ---------------------------------------------------------------------------

  predicate IsUpper(c: char) {
    'A' <= c <= 'Z'
  }

  function LowerChar(c: char): char {
    if IsUpper(c) then (c as int + 32) as char else c
  }

  /** `s.toLowerCase()`, restricted to ASCII letters. */
  function Lower(s: string): (r: string)
    ensures |r| == |s|
    ensures forall i :: 0 <= i < |r| ==> !IsUpper(r[i])
  {
    seq(|s|, i requires 0 <= i < |s| => LowerChar(s[i]))
  }

  /** Lowering twice is lowering once. */
  lemma LowerIdempotent(s: string)
    ensures Lower(Lower(s)) == Lower(s)
  {
    var l := Lower(s);
    forall i | 0 <= i < |l|
      ensures Lower(l)[i] == l[i]
    {
      assert !IsUpper(l[i]);
    }
  }

  // ---------------------------------------------------------------------------
  // Substrings
  // ---------------------------------------------------------------------------

  /** `s.startsWith(prefix)`, character by character. */
  predicate StartsWith(s: string, prefix: string)
    ensures StartsWith(s, prefix) ==> |prefix| <= |s|
  {
    prefix == [] || (s != [] && s[0] == prefix[0] && StartsWith(s[1..], prefix[1..]))
  }

  /** StartsWith is the prefix relation. */
  lemma {:induction false} StartsWithIffPrefix(s: string, prefix: string)
    ensures StartsWith(s, prefix) <==> |prefix| <= |s| && s[..|prefix|] == prefix
  {
    if prefix != [] && s != [] {
      StartsWithIffPrefix(s[1..], prefix[1..]);
      if |prefix| <= |s| && s[..|prefix|] == prefix {
        assert s[1..][..|prefix| - 1] == s[..|prefix|][1..];
      }
      if StartsWith(s, prefix) {
        assert s[..|prefix|] == [s[0]] + s[1..][..|prefix| - 1];
      }
    }
  }

  /** `s.includes(t)`: t occurs in s. */
  predicate Contains(s: string, t: string): (b: bool)
    ensures b ==> |t| <= |s|
    decreases |s|
  {
    StartsWith(s, t) || (s != [] && Contains(s[1..], t))
  }

  /** t occurs in s starting at index i. */
  predicate OccursAt(s: string, t: string, i: int) {
    0 <= i <= |s| - |t| && s[i..i + |t|] == t
  }

  /** `includes` agrees with the positional definition of a substring, both ways. */
  lemma {:induction false} ContainsIffOccurs(s: string, t: string)
    ensures Contains(s, t) <==> exists i :: OccursAt(s, t, i)
    decreases |s|
  {
    if Contains(s, t) {
      if StartsWith(s, t) {
        StartsWithIffPrefix(s, t);
        assert OccursAt(s, t, 0);
      } else {
        ContainsIffOccurs(s[1..], t);
        var i :| OccursAt(s[1..], t, i);
        assert s[i + 1..i + 1 + |t|] == s[1..][i..i + |t|];
        assert OccursAt(s, t, i + 1);
      }
    }
    if exists i :: OccursAt(s, t, i) {
      var i :| OccursAt(s, t, i);
      if i == 0 {
        StartsWithIffPrefix(s, t);
        assert StartsWith(s, t);
      } else {
        assert s[1..][i - 1..i - 1 + |t|] == s[i..i + |t|];
        assert OccursAt(s[1..], t, i - 1);
        ContainsIffOccurs(s[1..], t);
      }
    }
  }

  /** Every string contains the empty string. */
  lemma ContainsEmpty(s: string)
    ensures Contains(s, "")
  {
    assert StartsWith(s, "");
  }

  /** Lower-casing works character by character, so it distributes over concatenation. */
  lemma LowerAppend(a: string, b: string)
    ensures Lower(a + b) == Lower(a) + Lower(b)
  {
  }

  /** A string that lacks one of t's characters does not contain t. */
  lemma {:induction false} MissingChar(s: string, t: string, c: char)
    requires c in t && c !in s
    ensures !Contains(s, t)
  {
    ContainsIffOccurs(s, t);
    var k :| 0 <= k < |t| && t[k] == c;
    forall i | 0 <= i <= |s| - |t|
      ensures !OccursAt(s, t, i)
    {
      assert s[i..i + |t|][k] == s[i + k];
    }
  }

  /** A string in which t's k-th character occurs only too late for t to fit does not contain t. */
  lemma {:induction false} LateChar(s: string, t: string, c: char, k: nat)
    requires k < |t| && t[k] == c && |t| - k <= |s|
    requires c !in s[..|s| - |t| + k + 1]
    ensures !Contains(s, t)
  {
    ContainsIffOccurs(s, t);
    forall i | 0 <= i <= |s| - |t|
      ensures !OccursAt(s, t, i)
    {
      assert s[i..i + |t|][k] == s[i + k] == s[..|s| - |t| + k + 1][i + k];
    }
  }

  /** LateChar for a lower-case letter absent in both cases from the part of s where it would have to be. */
  lemma LateLetter(s: string, t: string, c: char, k: nat)
    requires 'a' <= c <= 'z' && k < |t| && t[k] == c && |t| - k <= |s|
    requires c !in s[..|s| - |t| + k + 1] && (c as int - 32) as char !in s[..|s| - |t| + k + 1]
    ensures !Contains(Lower(s), t)
  {
    var p := Lower(s)[..|s| - |t| + k + 1];
    forall j | 0 <= j < |p|
      ensures p[j] != c
    {
      assert s[j] == s[..|s| - |t| + k + 1][j];
    }
    LateChar(Lower(s), t, c, k);
  }

  /**
   * A string in which a lower-case letter of t occurs in neither case does not
   * contain t once lower-cased.
   */
  lemma LacksLetter(s: string, t: string, c: char)
    requires 'a' <= c <= 'z' && c in t
    requires c !in s && (c as int - 32) as char !in s
    ensures !Contains(Lower(s), t)
  {
    forall i | 0 <= i < |s|
      ensures Lower(s)[i] != c
    {
      assert s[i] in s;
    }
    MissingChar(Lower(s), t, c);
  }

  /** What occurs in b occurs in a + b. */
  lemma {:induction false} ContainsInSuffix(a: string, b: string, t: string)
    requires Contains(b, t)
    ensures Contains(a + b, t)
  {
    if a == [] {
      assert a + b == b;
    } else {
      assert (a + b)[1..] == a[1..] + b;
      ContainsInSuffix(a[1..], b, t);
    }
  }

  /** A match that starts before a character c absent from t ends before it. */
  lemma {:induction false} StartsWithBeforeGap(a: string, c: char, b: string, t: string)
    requires c !in t
    requires StartsWith(a + [c] + b, t)
    ensures StartsWith(a, t)
  {
    if t != [] {
      assert a != [];
      assert (a + [c] + b)[1..] == a[1..] + [c] + b;
      StartsWithBeforeGap(a[1..], c, b, t[1..]);
    }
  }

  /** An occurrence of t, which lacks c, lies wholly on one side of a c. */
  lemma {:induction false} ContainsAcrossGap(a: string, c: char, b: string, t: string)
    requires c !in t
    requires Contains(a + [c] + b, t)
    ensures Contains(a, t) || Contains(b, t)
  {
    var s := a + [c] + b;
    if StartsWith(s, t) {
      StartsWithBeforeGap(a, c, b, t);
    } else if a == [] {
      assert s[1..] == b;
    } else {
      assert s[1..] == a[1..] + [c] + b;
      ContainsAcrossGap(a[1..], c, b, t);
    }
  }

  /** No occurrence of a space-free t in a + " " + b unless t occurs in a or in b. */
  lemma NoMatchAcrossSpace(a: string, b: string, t: string)
    requires ' ' !in t
    requires !Contains(Lower(a), t) && !Contains(Lower(b), t)
    ensures !Contains(Lower(a + " " + b), t)
  {
    LowerAppend(a + " ", b);
    LowerAppend(a, " ");
    assert Lower(" ") == " ";
    if Contains(Lower(a + " " + b), t) {
      ContainsAcrossGap(Lower(a), ' ', Lower(b), t);
    }
  }

  // ---------------------------------------------------------------------------
  // Trimming
  // ---------------------------------------------------------------------------

  /** The ASCII part of the white space `String.prototype.trim` removes. */
  predicate IsSpace(c: char) {
    c == ' ' || c == '\t' || c == '\n' || c == '\r' || c == '\U{000B}' || c == '\U{000C}'
  }

  function TrimStart(s: string): (r: string)
    ensures |r| <= |s| && r == s[|s| - |r|..]
    ensures r != [] ==> !IsSpace(r[0])
    ensures forall i :: 0 <= i < |s| - |r| ==> IsSpace(s[i])
  {
    if s != [] && IsSpace(s[0]) then TrimStart(s[1..]) else s
  }

  function TrimEnd(s: string): (r: string)
    ensures |r| <= |s| && r == s[..|r|]
    ensures r != [] ==> !IsSpace(r[|r| - 1])
    ensures forall i :: |r| <= i < |s| ==> IsSpace(s[i])
  {
    if s != [] && IsSpace(s[|s| - 1]) then TrimEnd(s[..|s| - 1]) else s
  }

  /** `s.trim()`: s without leading and trailing white space. */
  function Trim(s: string): (r: string)
    ensures |r| <= |s|
    ensures r != [] ==> !IsSpace(r[0]) && !IsSpace(r[|r| - 1])
    ensures exists a, b :: (
              && 0 <= a <= b <= |s| && r == s[a..b]
              && (forall i :: 0 <= i < a ==> IsSpace(s[i]))
              && (forall i :: b <= i < |s| ==> IsSpace(s[i])))
  {
    var t := TrimStart(s);
    var a := |s| - |t|;
    var r := TrimEnd(t);
    assert r == s[a..a + |r|];
    assert forall i :: a + |r| <= i < |s| ==> IsSpace(s[i]) by {
      forall i | a + |r| <= i < |s| ensures IsSpace(s[i]) {
        assert s[i] == t[i - a];
      }
    }
    r
  }

  /** A string trims to "" exactly when it is made of white space only. */
  lemma TrimEmptyIffBlank(s: string)
    ensures Trim(s) == "" <==> forall i :: 0 <= i < |s| ==> IsSpace(s[i])
  {
    var t := TrimStart(s);
    if Trim(s) == "" {
      assert TrimEnd(t) == [];
      assert t == [];
    }
  }

  // ---------------------------------------------------------------------------
  // The ", "-separated list text of the admin form
  // ---------------------------------------------------------------------------

  /** The separator the form uses for cast and genre lists. */
  const ListSeparator: string := ", "

  /** `items.join(", ")`. */
  function JoinItems(items: seq<string>): (r: string)
    ensures items == [] ==> r == ""
    ensures |items| == 1 ==> r == items[0]
  {
    if |items| == 0 then ""
    else if |items| == 1 then items[0]
    else items[0] + ListSeparator + JoinItems(items[1..])
  }

  /** `text.split(", ")`: cut at each leftmost occurrence of the separator. */
  function SplitItems(text: string): (r: seq<string>)
    ensures |r| >= 1
  {
    SplitFrom(text, "")
  }

  /** Splitting the rest of the text when `field` has been read since the last separator. */
  function SplitFrom(text: string, field: string): (r: seq<string>)
    ensures |r| >= 1
    decreases |text|
  {
    if StartsWith(text, ListSeparator) then [field] + SplitFrom(text[|ListSeparator|..], "")
    else if text == [] then [field]
    else SplitFrom(text[1..], field + [text[0]])
  }

  /** Joining a list with at least two items puts the separator after the first. */
  lemma JoinCons(item: string, items: seq<string>)
    requires items != []
    ensures JoinItems([item] + items) == item + ListSeparator + JoinItems(items)
  {
    assert ([item] + items)[1..] == items;
  }

  /** A text that starts with the separator is the separator followed by the rest. */
  lemma SeparatorThenRest(text: string)
    requires StartsWith(text, ListSeparator)
    ensures |ListSeparator| <= |text| && text == ListSeparator + text[|ListSeparator|..]
  {
    StartsWithIffPrefix(text, ListSeparator);
  }

  lemma {:induction false} JoinSplitFrom(text: string, field: string)
    ensures JoinItems(SplitFrom(text, field)) == field + text
    decreases |text|
  {
    if StartsWith(text, ListSeparator) {
      var rest := text[|ListSeparator|..];
      SeparatorThenRest(text);
      JoinSplitFrom(rest, "");
      JoinCons(field, SplitFrom(rest, ""));
    } else if text == [] {
    } else {
      JoinSplitFrom(text[1..], field + [text[0]]);
      assert field + [text[0]] + text[1..] == field + text;
    }
  }

  /** What the cast and genre inputs show after an edit is exactly what was typed. */
  lemma JoinSplit(text: string)
    ensures JoinItems(SplitItems(text)) == text
  {
    JoinSplitFrom(text, "");
  }

  /** An item that does not contain the separator is read as one field. */
  lemma {:induction false} SplitReadsField(w: string, rest: string, field: string)
    requires !Contains(w, ListSeparator)
    requires rest == [] || StartsWith(rest, ListSeparator)
    ensures SplitFrom(w + rest, field) == SplitFrom(rest, field + w)
    decreases |w|
  {
    if w == [] {
      assert w + rest == rest;
      assert field + w == field;
    } else {
      var s := w + rest;
      StartsWithIffPrefix(s, ListSeparator);
      StartsWithIffPrefix(w, ListSeparator);
      StartsWithIffPrefix(rest, ListSeparator);
      if |w| >= 2 {
        assert s[..2] == w[..2];
        assert !StartsWith(w, ListSeparator);
      } else if rest != [] {
        assert s[1] == rest[0] == ',';
      }
      assert !StartsWith(s, ListSeparator);
      assert !Contains(w[1..], ListSeparator);
      assert s[1..] == w[1..] + rest;
      SplitReadsField(w[1..], rest, field + [w[0]]);
      assert field + [w[0]] + w[1..] == field + w;
    }
  }

  /**
   * Splitting the joined text gives the list back, for a non-empty list whose
   * items do not contain the separator.
   */
  lemma {:induction false} SplitJoin(items: seq<string>)
    requires |items| >= 1
    requires forall i :: 0 <= i < |items| ==> !Contains(items[i], ListSeparator)
    ensures SplitItems(JoinItems(items)) == items
  {
    if |items| == 1 {
      assert JoinItems(items) == items[0];
      SplitReadsField(items[0], [], "");
      assert items[0] + [] == items[0];
      assert "" + items[0] == items[0];
    } else {
      var tail := JoinItems(items[1..]);
      var rest := ListSeparator + tail;
      assert JoinItems(items) == items[0] + rest;
      assert StartsWith(rest, ListSeparator);
      SplitReadsField(items[0], rest, "");
      assert "" + items[0] == items[0];
      assert rest[|ListSeparator|..] == tail;
      SplitJoin(items[1..]);
      assert items == [items[0]] + items[1..];
    }
  }

  /** The empty list shows as "" and comes back as one empty item. */
  lemma SplitJoinEmpty()
    ensures SplitItems(JoinItems([])) == [""]
  {
  }
}
