/** Turning a name picked by a user into one path component of an uploaded file. */
module SafeFilenames {
  import opened Basics

  const NAME_LIMIT := 240

  /** Bytes one character takes in UTF-8. */
  function Utf8Size(c: char): nat {
    if c < 0x80 as char then 1 else if c < 0x800 as char then 2 else if c < 0x10000 as char then 3 else 4
  }

  function ByteLength(s: string): nat {
    if s == "" then 0 else ByteLength(s[..|s| - 1]) + Utf8Size(s[|s| - 1])
  }

  predicate Forbidden(c: char) {
    c <= 0x1f as char || c == 0x7f as char || c == '/' || c == '\\'
  }

  /** White space and line terminators, as String.trim knows them. */
  predicate Blank(c: char) {
    || 0x9 as char <= c <= 0xd as char
    || c in {' ', 0xa0 as char, 0x1680 as char, 0x2028 as char, 0x2029 as char, 0x202f as char,
             0x205f as char, 0x3000 as char, 0xfeff as char}
    || 0x2000 as char <= c <= 0x200a as char
  }

  function TrimStart(s: string): (r: string)
    ensures r == "" || !Blank(r[0])
    ensures |r| <= |s| && r == s[|s| - |r|..]
    ensures forall i :: 0 <= i < |s| - |r| ==> Blank(s[i])
  {
    if s != "" && Blank(s[0]) then TrimStart(s[1..]) else s
  }

  function TrimEnd(s: string): (r: string)
    ensures r == "" || !Blank(r[|r| - 1])
    ensures |r| <= |s| && r == s[..|r|]
    ensures forall i :: |r| <= i < |s| ==> Blank(s[i])
  {
    if s != "" && Blank(s[|s| - 1]) then TrimEnd(s[..|s| - 1]) else s
  }

  function Replaced(s: string): string {
    seq(|s|, i requires 0 <= i < |s| => if Forbidden(s[i]) then '_' else s[i])
  }

  function Cleaned(value: string): string {
    TrimEnd(TrimStart(Replaced(value)))
  }

  lemma {:induction false} LongerIsNoSmaller(s: string, m: nat, n: nat)
    requires m <= n <= |s|
    ensures ByteLength(s[..m]) <= ByteLength(s[..n])
    decreases n
  {
    if m < n {
      assert s[..n][..n - 1] == s[..n - 1];
      LongerIsNoSmaller(s, m, n - 1);
    }
  }

  /** One component of a path, which join cannot turn into another place. */
  predicate IsComponent(name: string) {
    name != "" && name != "." && name != ".." && forall i :: 0 <= i < |name| ==> !Forbidden(name[i])
  }

  lemma {:induction false} AtMostFourEach(s: string)
    ensures ByteLength(s) <= 4 * |s|
    decreases |s|
  {
    if s != "" { AtMostFourEach(s[..|s| - 1]); }
  }

  lemma CleanedIsAllowed(value: string)
    ensures forall i :: 0 <= i < |Cleaned(value)| ==> !Forbidden(Cleaned(value)[i])
  {
    var start := TrimStart(Replaced(value));
    assert forall i :: 0 <= i < |start| ==> start[i] in Replaced(value);
    assert forall c :: c in Replaced(value) ==> !Forbidden(c);
    assert forall i :: 0 <= i < |TrimEnd(start)| ==> TrimEnd(start)[i] in start;
  }

  ghost predicate LongestFit(r: string, s: string) {
    r <= s && ByteLength(r) <= 240 && forall n :: |r| < n <= |s| ==> 240 < ByteLength(s[..n])
  }

  /** Whole characters are added while the result still fits in the limit. */
  method Truncate(cleaned: string) returns (result: string)
    ensures LongestFit(result, cleaned)
  {
    result := "";
    for i := 0 to |cleaned|
      invariant result == cleaned[..i] && ByteLength(result) <= NAME_LIMIT
    {
      var longer := result + [cleaned[i]];
      assert cleaned[..i + 1] == longer;
      if ByteLength(longer) > NAME_LIMIT {
        forall n | i < n <= |cleaned|
          ensures 240 < ByteLength(cleaned[..n])
        {
          LongerIsNoSmaller(cleaned, i + 1, n);
        }
        return;
      }
      result := longer;
    }
  }

  /** A character of the name and the bytes it takes: what a path component cannot hold becomes an underscore. */
  lemma CharactersExactly(value: string, i: nat)
    requires i < |value|
    ensures var c := value[i] as int;
            var forbidden := c < 32 || c == 127 || c == 47 || c == 92;
            Replaced(value)[i] == if forbidden then '_' else value[i]
    ensures Utf8Size(value[i]) ==
            (var c := value[i] as int; if c < 128 then 1 else if c < 2048 then 2 else if c < 65536 then 3 else 4)
  {}

  /** The white space of the ECMAScript specification, section 12.2, and its line terminators. */
  lemma BlankExactly(c: char)
    ensures Blank(c) <==> c as int in {9, 10, 11, 12, 13, 32, 160, 5760, 8192, 8193, 8194, 8195, 8196, 8197, 8198, 8199, 8200, 8201,
                                       8202, 8232, 8233, 8239, 8287, 12288, 65279}
  {}

  /** White space at both ends is cut off, and nothing else: the rest stands in the middle of the name. */
  lemma CleanedExactly(value: string) returns (from: nat, to: nat)
    ensures from <= to <= |value| && Cleaned(value) == Replaced(value)[from..to]
    ensures forall i :: 0 <= i < from || to <= i < |value| ==> Blank(Replaced(value)[i])
    ensures from < to ==> !Blank(Replaced(value)[from]) && !Blank(Replaced(value)[to - 1])
  {
    var s := Replaced(value);
    assert |s| == |value|;
    hide Replaced, Blank;
    var a := TrimStart(s);
    from := |s| - |a|;
    var b := TrimEnd(a);
    to := from + |b|;
    assert s[from..] == a && b == a[..|b|] && s[from..to] == b;
    forall i | to <= i < |value|
      ensures Blank(s[i])
    {
      assert s[i] == a[i - from];
    }
  }

  lemma ShortNamesAreWhole(r: string, s: string)
    requires LongestFit(r, s) && |r| < 60
    ensures r == s
  {
    if |r| < |s| {
      AtMostFourEach(s[..|r| + 1]);
      assert false;
    }
  }

  /**
   The longest prefix of the cleaned name that the file system takes, or "file" when
   the cleaned name is no name at all: always one component of at most 240 bytes.
   */
  method SafeFilename(value: string) returns (result: string)
    ensures IsComponent(result) && ByteLength(result) <= NAME_LIMIT
    ensures if Cleaned(value) in {"", ".", ".."} then result == "file" else LongestFit(result, Cleaned(value))
  {
    var cleaned := Cleaned(value);
    result := Truncate(cleaned);
    CleanedIsAllowed(value);
    if |result| < 60 { ShortNamesAreWhole(result, cleaned); }
    if result == "" || result == "." || result == ".." {
      result := "file";
      AtMostFourEach("file");
    }
  }
}
