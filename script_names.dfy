/** The file names saved touch scripts get: every character outside `[A-Za-z0-9_-]` becomes `_`,
    and saving a script whose name sanitises to nothing names it after the current Unix time. */
module ScriptNames {
  import opened Text

  /** The characters the sanitiser keeps. */
  predicate IsNameChar(c: char)
  {
    'a' <= c <= 'z' || 'A' <= c <= 'Z' || '0' <= c <= '9' || c == '_' || c == '-'
  }

  predicate IsSafeName(s: string)
  {
    forall i :: 0 <= i < |s| ==> IsNameChar(s[i])
  }

  /** Replacing every character outside the class `[a-zA-Z0-9_-]` by `_`. */
  function Sanitize(name: string): (safe: string)
    ensures IsSafeName(safe)
  {
    if name == [] then []
    else [if IsNameChar(name[0]) then name[0] else '_'] + Sanitize(name[1..])
  }

  /** Character by character: kept where allowed, `_` elsewhere, so the length is unchanged. */
  lemma {:induction false} SanitizeChars(name: string)
    ensures |Sanitize(name)| == |name|
    ensures forall i :: 0 <= i < |name| ==>
      Sanitize(name)[i] == if IsNameChar(name[i]) then name[i] else '_'
  {
    if name != [] {
      SanitizeChars(name[1..]);
      forall i | 1 <= i < |name|
        ensures Sanitize(name)[i] == if IsNameChar(name[i]) then name[i] else '_'
      {
        assert Sanitize(name)[i] == Sanitize(name[1..])[i - 1];
        assert name[1..][i - 1] == name[i];
      }
    }
  }

  /** A name made only of allowed characters is left as it is. */
  lemma {:induction false} SanitizeSafe(name: string)
    requires IsSafeName(name)
    ensures Sanitize(name) == name
  {
    if name != [] {
      assert IsSafeName(name[1..]) by {
        forall i | 0 <= i < |name[1..]|
          ensures IsNameChar(name[1..][i])
        {
          assert name[1..][i] == name[i + 1];
        }
      }
      SanitizeSafe(name[1..]);
    }
  }

  /** Sanitising twice is sanitising once. */
  lemma SanitizeIdempotent(name: string)
    ensures Sanitize(Sanitize(name)) == Sanitize(name)
  {
    SanitizeSafe(Sanitize(name));
  }

  /** Only the empty name sanitises to the empty name. */
  lemma SanitizeEmpty(name: string)
    ensures Sanitize(name) == [] <==> name == []
  {
    SanitizeChars(name);
  }

  /** The file SaveTouchScript writes, at Unix time `now`. */
  function SaveFileName(name: string, now: int): string
  {
    var safe := Sanitize(name);
    (if safe == "" then "script_" + IntToString(now) else safe) + ".json"
  }

  /** The file DeleteTouchScript removes. */
  function DeleteFileName(name: string): string
  {
    Sanitize(name) + ".json"
  }

  /** A saved file's stem is never empty and is itself a safe name. */
  lemma SaveStemSafe(name: string, now: int)
    ensures var stem := SaveFileName(name, now)[..|SaveFileName(name, now)| - 5];
      stem != [] && IsSafeName(stem) && Sanitize(stem) == stem
  {
    var safe := Sanitize(name);
    var stem := if safe == "" then "script_" + IntToString(now) else safe;
    assert SaveFileName(name, now)[..|SaveFileName(name, now)| - 5] == stem;
    if safe == "" {
      var digits := IntToString(now);
      forall i | 0 <= i < |stem|
        ensures IsNameChar(stem[i])
      {
        if i >= 7 {
          assert stem[i] == digits[i - 7];
          assert digits[i - 7] == '-' || IsDigit(digits[i - 7]);
        }
      }
    }
    SanitizeSafe(stem);
  }

  /** Deleting by the name a script was saved under removes the file saving wrote, unless the
      name was empty: then saving used the time-stamped name and deletion targets `.json`. */
  lemma SaveThenDelete(name: string, now: int)
    ensures name != [] ==> DeleteFileName(name) == SaveFileName(name, now)
    ensures name == [] ==> DeleteFileName(name) == ".json" != SaveFileName(name, now)
  {
    SanitizeEmpty(name);
    if name == [] {
      assert |SaveFileName(name, now)| > 5;
    }
  }

  /** Two names that agree after sanitising address the same file. */
  lemma DeleteFileNameSanitized(name: string)
    ensures DeleteFileName(Sanitize(name)) == DeleteFileName(name)
  {
    SanitizeIdempotent(name);
  }
}
