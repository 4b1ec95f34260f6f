/**
  The name-formatting helper of the test-record script: it turns the logical
  name of a lookup attribute into the key under which an OData create request
  binds that relationship (`parentaccountid@odata.bind`,
  `new_Projectid@odata.bind`).

  The helper is written in terms of JavaScript's `split`, `slice` and `join`;
  `Split` and `Join` below give those operations' meaning for a one-character
  separator, and `ExpectedBindingKey` is an independent description of the
  result in terms of the last separator, proved equal to the helper.
*/
module BindingKey {

  /** The suffix that marks a relationship binding in an OData payload. */
  const BindSuffix: string := "@odata.bind"

  /** The character on which logical names are split. */
  const Separator: char := '_'

  // ---------------------------------------------------------------------------
  // Characters

  /** Upper-casing of one character, restricted to the ASCII letters. */
  function UpperAscii(c: char): char
  {
    if 'a' <= c <= 'z' then (c as int - 32) as char else c
  }

  /** Lower-casing of one character, restricted to the ASCII letters. */
  function LowerAscii(c: char): char
  {
    if 'A' <= c <= 'Z' then (c as int + 32) as char else c
  }

  predicate IsUpperAscii(c: char)
  {
    'A' <= c <= 'Z'
  }

  /** No character of `s` is an upper-case ASCII letter. */
  predicate NoUpperAscii(s: string)
  {
    forall i :: 0 <= i < |s| ==> !IsUpperAscii(s[i])
  }

  /** Lower-casing undoes upper-casing on every character that is not already upper case. */
  lemma LowerUndoesUpper(c: char)
    requires !IsUpperAscii(c)
    ensures LowerAscii(UpperAscii(c)) == c
  {
  }

  // ---------------------------------------------------------------------------
  // JavaScript string operations

  /**
    `s.split(sep)`: the maximal separator-free pieces of `s`, in order. There
    is always at least one piece (`"".split("_")` is `[""]`), and adjacent or
    trailing separators give empty pieces.
  */
  function Split(s: string, sep: char): (parts: seq<string>)
    ensures |parts| >= 1
    ensures forall i :: 0 <= i < |parts| ==> sep !in parts[i]
    decreases |s|
  {
    if s == [] then [""]
    else
      var rest := Split(s[1..], sep);
      if s[0] == sep then [""] + rest
      else [[s[0]] + rest[0]] + rest[1..]
  }

  /** `parts.join(sep)`: the pieces with one separator between neighbours. */
  function Join(parts: seq<string>, sep: char): string
  {
    if |parts| == 0 then ""
    else if |parts| == 1 then parts[0]
    else parts[0] + [sep] + Join(parts[1..], sep)
  }

  /** Joining the pieces of a split gives back the string that was split. */
  lemma {:induction false} JoinSplit(s: string, sep: char)
    ensures Join(Split(s, sep), sep) == s
    decreases |s|
  {
    if s != [] {
      var rest := Split(s[1..], sep);
      JoinSplit(s[1..], sep);
      if s[0] == sep {
        assert ([""] + rest)[1..] == rest;
      } else if |rest| == 1 {
        assert Join(Split(s, sep), sep) == [s[0]] + rest[0];
      } else {
        var parts := [[s[0]] + rest[0]] + rest[1..];
        assert parts[1..] == rest[1..];
        assert Join(rest, sep) == rest[0] + [sep] + Join(rest[1..], sep);
        assert Join(parts, sep) == [s[0]] + rest[0] + [sep] + Join(rest[1..], sep);
      }
    }
  }

  /** A split yields a single piece exactly when the separator does not occur. */
  lemma {:induction false} SplitSingle(s: string, sep: char)
    ensures |Split(s, sep)| == 1 <==> sep !in s
    decreases |s|
  {
    if s != [] {
      SplitSingle(s[1..], sep);
      assert s == [s[0]] + s[1..];
    }
  }

  /** Joining one more piece appends the separator and that piece. */
  lemma {:induction false} JoinSnoc(parts: seq<string>, last: string, sep: char)
    requires |parts| >= 1
    ensures Join(parts + [last], sep) == Join(parts, sep) + [sep] + last
    decreases |parts|
  {
    if |parts| > 1 {
      JoinSnoc(parts[1..], last, sep);
      assert (parts + [last])[1..] == parts[1..] + [last];
    } else {
      assert (parts + [last])[1..] == [last];
    }
  }

  // ---------------------------------------------------------------------------
  // The helper

  /** `name.charAt(0).toUpperCase() + name.slice(1)`, with ASCII upper-casing. */
  function Capitalize(s: string): string
  {
    if s == [] then "" else [UpperAscii(s[0])] + s[1..]
  }

  /**
    formatLookupBindingKey: split on `_`; with no separator the name is kept
    whole; otherwise every piece but the last is re-joined with its trailing
    separator, the last piece is capitalized, and the suffix is appended.
  */
  function FormatLookupBindingKey(logicalName: string): string
  {
    var parts := Split(logicalName, Separator);
    if |parts| < 2 then logicalName + BindSuffix
    else
      var prefix := Join(parts[..|parts| - 1], Separator) + [Separator];
      var name := parts[|parts| - 1];
      prefix + Capitalize(name) + BindSuffix
  }

  // ---------------------------------------------------------------------------
  // The reference description

  /** Index of the last occurrence of `c` in `s`, or -1 when `c` does not occur. */
  function LastIndexOf(s: string, c: char): (k: int)
    ensures -1 <= k < |s|
    ensures k == -1 <==> c !in s
    ensures k >= 0 ==> s[k] == c && c !in s[k + 1..]
    decreases |s|
  {
    if s == [] then -1
    else if s[|s| - 1] == c then |s| - 1
    else
      var k := LastIndexOf(s[..|s| - 1], c);
      assert s == s[..|s| - 1] + [s[|s| - 1]];
      assert k >= 0 ==> s[k + 1..] == s[..|s| - 1][k + 1..] + [s[|s| - 1]];
      k
  }

  /**
    The binding key described without splitting: the name unchanged when it has
    no separator, otherwise everything up to and including the last separator
    unchanged followed by the capitalized final segment; then the suffix.
  */
  function ExpectedBindingKey(logicalName: string): string
  {
    var k := LastIndexOf(logicalName, Separator);
    if k < 0 then logicalName + BindSuffix
    else logicalName[..k + 1] + Capitalize(logicalName[k + 1..]) + BindSuffix
  }

  /** The last separator of `pre + [sep] + post` is the one written out, when `post` has none. */
  lemma LastIndexOfSplitPoint(pre: string, post: string, sep: char)
    requires sep !in post
    ensures LastIndexOf(pre + [sep] + post, sep) == |pre|
  {
    var s := pre + [sep] + post;
    var k := LastIndexOf(s, sep);
    assert s[|pre|] == sep;
    assert s[|pre| + 1..] == post;
  }

  /** The helper agrees with the reference description on every name. */
  lemma FormatMatchesExpected(logicalName: string)
    ensures FormatLookupBindingKey(logicalName) == ExpectedBindingKey(logicalName)
  {
    var parts := Split(logicalName, Separator);
    SplitSingle(logicalName, Separator);
    if |parts| >= 2 {
      var m := |parts| - 1;
      var pre := Join(parts[..m], Separator);
      var last := parts[m];
      assert parts == parts[..m] + [last];
      JoinSnoc(parts[..m], last, Separator);
      JoinSplit(logicalName, Separator);
      assert logicalName == pre + [Separator] + last;
      LastIndexOfSplitPoint(pre, last, Separator);
      assert logicalName[..|pre| + 1] == pre + [Separator];
      assert logicalName[|pre| + 1..] == last;
    }
  }

  // ---------------------------------------------------------------------------
  // Properties of the helper

  /** A name without `_` is kept whole and only gets the suffix. */
  lemma BindingKeyWithoutSeparator(logicalName: string)
    requires Separator !in logicalName
    ensures FormatLookupBindingKey(logicalName) == logicalName + BindSuffix
  {
    SplitSingle(logicalName, Separator);
  }

  /** A name with `_` keeps everything up to and including its last `_` unchanged. */
  lemma BindingKeyKeepsPrefix(logicalName: string)
    requires Separator in logicalName
    ensures var k := LastIndexOf(logicalName, Separator);
      logicalName[..k + 1] <= FormatLookupBindingKey(logicalName)
  {
    FormatMatchesExpected(logicalName);
  }

  /** A name ending in `_` (an empty final segment) is kept whole and only gets the suffix. */
  lemma BindingKeyTrailingSeparator(logicalName: string)
    requires |logicalName| > 0 && logicalName[|logicalName| - 1] == Separator
    ensures FormatLookupBindingKey(logicalName) == logicalName + BindSuffix
  {
    FormatMatchesExpected(logicalName);
    assert logicalName[..|logicalName|] == logicalName;
  }

  /**
    Position of the character the helper upper-cases: the first character of the
    final segment when the name has a separator, and -1 (no position) otherwise.
    It equals |logicalName| when the final segment is empty.
  */
  function CapitalPosition(logicalName: string): int
  {
    var k := LastIndexOf(logicalName, Separator);
    if k < 0 then -1 else k + 1
  }

  /**
    `key` is `logicalName` followed by the suffix, except that the character at
    `position` (if it is a position of the name) is upper-cased.
  */
  predicate CopiesWithCapital(key: string, logicalName: string, position: int)
  {
    && |key| == |logicalName| + |BindSuffix|
    && key[|logicalName|..] == BindSuffix
    && forall i :: 0 <= i < |logicalName| ==>
         key[i] == if i == position then UpperAscii(logicalName[i]) else logicalName[i]
  }

  /**
    Character by character: the key is as long as the name plus the suffix, ends
    in the suffix, and copies the name unchanged except for the one character at
    CapitalPosition, which is upper-cased.
  */
  lemma BindingKeyPointwise(logicalName: string)
    ensures CopiesWithCapital(FormatLookupBindingKey(logicalName), logicalName, CapitalPosition(logicalName))
  {
    FormatMatchesExpected(logicalName);
    ExpectedPointwise(logicalName);
  }

  /** The reference description, character by character. */
  lemma ExpectedPointwise(logicalName: string)
    ensures CopiesWithCapital(ExpectedBindingKey(logicalName), logicalName, CapitalPosition(logicalName))
  {
  }

  /** Every key ends in the binding suffix. */
  lemma BindingKeyEndsWithSuffix(logicalName: string)
    ensures var key := FormatLookupBindingKey(logicalName);
      |key| >= |BindSuffix| && key[|key| - |BindSuffix|..] == BindSuffix
  {
  }

  /** The key always holds an `@`, so it never equals a name without one. */
  lemma BindingKeyHasAt(logicalName: string)
    ensures '@' in FormatLookupBindingKey(logicalName)
  {
  }

  /** Reads the logical name back out of a binding key, by lower-casing what precedes the suffix. */
  function RecoverLogicalName(key: string): (logicalName: string)
    requires |key| >= |BindSuffix|
  {
    seq(|key| - |BindSuffix|, i requires 0 <= i < |key| - |BindSuffix| => LowerAscii(key[i]))
  }

  /** For names without upper-case letters, RecoverLogicalName inverts the helper. */
  lemma RecoverAfterFormat(logicalName: string)
    requires NoUpperAscii(logicalName)
    ensures RecoverLogicalName(FormatLookupBindingKey(logicalName)) == logicalName
  {
    BindingKeyPointwise(logicalName);
    var key := FormatLookupBindingKey(logicalName);
    var back := RecoverLogicalName(key);
    forall i | 0 <= i < |logicalName|
      ensures back[i] == logicalName[i]
    {
      LowerUndoesUpper(logicalName[i]);
    }
  }

  /** Hence two names without upper-case letters never share a binding key. */
  lemma BindingKeyInjective(a: string, b: string)
    requires NoUpperAscii(a) && NoUpperAscii(b)
    requires FormatLookupBindingKey(a) == FormatLookupBindingKey(b)
    ensures a == b
  {
    RecoverAfterFormat(a);
    RecoverAfterFormat(b);
  }
}
