/**
 * The section identifier: `heading.join("-").toLowerCase()
 * .replace(/[^a-z0-9-]/g, "-")`, written identically at two places of the
 * viewer (app/components/DocumentViewer.tsx:63-66 and :126-129).
 */
module SectionId {
  import opened Text

  /** `toLowerCase` on one character; only ASCII letters are mapped. */
  function LowerAscii(c: char): char
  {
    if 'A' <= c <= 'Z' then (c as int + 32) as char else c
  }

  /** `s.toLowerCase()`, character by character. */
  function ToLower(s: string): (r: string)
    ensures |r| == |s|
  {
    if s == [] then [] else [LowerAscii(s[0])] + ToLower(s[1..])
  }

  /** Each character of `s.toLowerCase()` is the lower case of the character at the same place. */
  lemma {:induction false} ToLowerPointwise(s: string)
    ensures forall i :: 0 <= i < |s| ==> ToLower(s)[i] == LowerAscii(s[i])
  {
    if s != [] {
      ToLowerPointwise(s[1..]);
      forall i | 1 <= i < |s| ensures ToLower(s)[i] == LowerAscii(s[i]) {
        assert ToLower(s)[i] == ToLower(s[1..])[i - 1];
      }
    }
  }

  /** The character class `[a-z0-9-]`. */
  predicate IsSlugChar(c: char)
  {
    'a' <= c <= 'z' || '0' <= c <= '9' || c == '-'
  }

  /** `s.replace(/[^a-z0-9-]/g, "-")`: every character outside the class becomes `-`. */
  function ReplaceNonSlug(s: string): (r: string)
    ensures |r| == |s|
  {
    if s == [] then [] else [if IsSlugChar(s[0]) then s[0] else '-'] + ReplaceNonSlug(s[1..])
  }

  /** The replacement keeps a character of the class and turns any other into `-`, in place. */
  lemma {:induction false} ReplaceNonSlugPointwise(s: string)
    ensures forall i :: 0 <= i < |s| ==>
      ReplaceNonSlug(s)[i] == (if IsSlugChar(s[i]) then s[i] else '-')
  {
    if s != [] {
      ReplaceNonSlugPointwise(s[1..]);
      forall i | 1 <= i < |s| ensures ReplaceNonSlug(s)[i] == (if IsSlugChar(s[i]) then s[i] else '-') {
        assert ReplaceNonSlug(s)[i] == ReplaceNonSlug(s[1..])[i - 1];
      }
    }
  }

  /** The identifier of a section with this heading. */
  function Slug(heading: seq<string>): (r: string)
    ensures |r| == |Join(heading, "-")|
  {
    ReplaceNonSlug(ToLower(Join(heading, "-")))
  }

  /** A slug is made of `[a-z0-9-]` only; in particular it never holds `/`. */
  lemma SlugAlphabet(heading: seq<string>)
    ensures forall i :: 0 <= i < |Slug(heading)| ==> IsSlugChar(Slug(heading)[i])
    ensures '/' !in Slug(heading)
  {
    ReplaceNonSlugPointwise(ToLower(Join(heading, "-")));
  }

  /**
   * The slug has one character per character of the `-`-joined heading:
   * the lower-cased character when it is in `[a-z0-9-]`, `-` otherwise.
   */
  lemma SlugPointwise(heading: seq<string>)
    ensures |Slug(heading)| == |Join(heading, "-")|
    ensures forall i :: 0 <= i < |Slug(heading)| ==>
      Slug(heading)[i] == (if IsSlugChar(LowerAscii(Join(heading, "-")[i])) then LowerAscii(Join(heading, "-")[i]) else '-')
  {
    ToLowerPointwise(Join(heading, "-"));
    ReplaceNonSlugPointwise(ToLower(Join(heading, "-")));
  }

  /** Slugifying a one-fragment heading changes nothing exactly when the text is already in `[a-z0-9-]`. */
  lemma SlugFixpoint(t: string)
    ensures Slug([t]) == t <==> forall i :: 0 <= i < |t| ==> IsSlugChar(t[i])
  {
    if Slug([t]) == t {
      SlugAlphabet([t]);
    } else {
      SlugPointwise([t]);
      assert Join([t], "-") == t;
    }
  }

  /** Re-slugging a slug leaves it unchanged. */
  lemma SlugIdempotent(heading: seq<string>)
    ensures Slug([Slug(heading)]) == Slug(heading)
  {
    SlugAlphabet(heading);
    SlugFixpoint(Slug(heading));
  }
}
