/** `sanitize_filename` (main.py:25-26): every character of the class
    `<>:"/\|?*` is replaced by an underscore, every other one is kept. */
module FileNames {

  const Replacement: char := '_'

  /** The nine characters main.py:26 replaces: less-than, greater-than, colon,
      double quote, slash, backslash, vertical bar, question mark, asterisk. */
  predicate IsIllegal(c: char) {
    c == '<' || c == '>' || c == ':' || c == '"' || c == '/' || c == '\\' || c == '|' || c == '?' || c == '*'
  }

  /** A name holding none of the replaced characters. */
  predicate IsClean(s: string) {
    forall i :: 0 <= i < |s| ==> !IsIllegal(s[i])
  }

  function Sanitize(name: string): (r: string)
    ensures |r| == |name|
    ensures forall i :: 0 <= i < |name| && !IsIllegal(name[i]) ==> r[i] == name[i]
    ensures forall i :: 0 <= i < |name| && IsIllegal(name[i]) ==> r[i] == Replacement
  {
    if name == [] then []
    else [if IsIllegal(name[0]) then Replacement else name[0]] + Sanitize(name[1..])
  }

  /** The result holds none of the replaced characters. */
  lemma SanitizeIsClean(name: string)
    ensures IsClean(Sanitize(name))
  {
  }

  /** A clean name is left as it is, and only a clean name is. */
  lemma SanitizeFixesExactlyClean(name: string)
    ensures Sanitize(name) == name <==> IsClean(name)
  {
  }

  /** Sanitising twice gives what sanitising once gives. */
  lemma SanitizeIdempotent(name: string)
    ensures Sanitize(Sanitize(name)) == Sanitize(name)
  {
  }

  /** The substitution works position by position, so it distributes over concatenation. */
  lemma SanitizeConcat(a: string, b: string)
    ensures Sanitize(a + b) == Sanitize(a) + Sanitize(b)
  {
  }
}
