/**
 * The frontmatter check of the sync module: the regular expression `/^---\n([\s\S]*?)\n---/`
 * without the `m` flag, tested against a whole file. `^` anchors at the start of the text,
 * `[\s\S]*?` matches any characters, line breaks included, so the text matches exactly when it
 * opens with `---` and a line feed and the four characters `\n---` occur somewhere from index 4 on.
 * Nothing after the closing dashes is examined.
 */
module Frontmatter {
  import opened Wrappers
  import opened Text

  const Opening: string := "---\n"
  const Closing: string := "\n---"

  /** The closing delimiter `\n---` starts at index `i` of `content`. */
  predicate ClosingAt(content: string, i: nat)
  {
    i + |Closing| <= |content| && content[i..i + |Closing|] == Closing
  }

  /** Reference meaning of the pattern: an opening line, then a closing delimiter at index 4 or later. */
  ghost predicate HasFrontmatter(content: string)
  {
    StartsWith(content, Opening) && exists i: nat :: |Opening| <= i && ClosingAt(content, i)
  }

  /**
   * The lazy `[\s\S]*?` tries the shortest block first: the first index at or after `from`
   * where the closing delimiter starts, if any.
   */
  function FindClosing(content: string, from: nat): (r: Option<nat>)
    decreases |content| - from
    ensures r.Some? ==> from <= r.value && ClosingAt(content, r.value)
    ensures r.Some? ==> forall j: nat :: from <= j < r.value ==> !ClosingAt(content, j)
    ensures r.None? ==> forall j: nat :: from <= j ==> !ClosingAt(content, j)
  {
    if |content| < from + |Closing| then None
    else if ClosingAt(content, from) then Some(from)
    else FindClosing(content, from + 1)
  }

  /** `frontmatterRegex.test(content)` */
  function ValidateYamlFrontmatter(content: string): (valid: bool)
    ensures valid <==> HasFrontmatter(content)
  {
    StartsWith(content, Opening) && FindClosing(content, |Opening|).Some?
  }

  /** Text after the closing dashes is never examined: appending anything keeps a valid file valid. */
  lemma TrailingTextIgnored(content: string, rest: string)
    requires ValidateYamlFrontmatter(content)
    ensures ValidateYamlFrontmatter(content + rest)
  {
    var i: nat :| |Opening| <= i && ClosingAt(content, i);
    assert (content + rest)[..|Opening|] == content[..|Opening|];
    assert (content + rest)[i..i + |Closing|] == content[i..i + |Closing|];
    assert ClosingAt(content + rest, i);
  }

  /** A valid file is at least eight characters long: the opening line and the closing delimiter cannot overlap. */
  lemma ValidIsLong(content: string)
    requires ValidateYamlFrontmatter(content)
    ensures |content| >= |Opening| + |Closing|
  {
  }

  /** The closing dashes need not end a line: `---x` after a line feed still closes the block. */
  lemma ClosingNeedNotEndLine()
    ensures ValidateYamlFrontmatter("---\nname: reviewer\n---x")
  {
    var c := "---\nname: reviewer\n---x";
    assert ClosingAt(c, 18);
  }

  /** An empty block is accepted. */
  lemma EmptyBlockAccepted()
    ensures ValidateYamlFrontmatter("---\n\n---")
  {
  }

  /** The line feed ending the opening line cannot also start the closing delimiter. */
  lemma SharedLineFeedRejected()
    ensures !ValidateYamlFrontmatter("---\n---")
  {
  }

  /** Windows line endings are not accepted: the opening must be followed by a bare line feed. */
  lemma CarriageReturnRejected(content: string)
    requires |content| >= 5 && content[..5] == "---\r\n"
    ensures !ValidateYamlFrontmatter(content)
  {
    assert content[3] == '\r';
  }
}
