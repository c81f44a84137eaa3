/**
 Clean-up of a driver diagnostic before it is shown as the connection's error
 message. Driver managers prefix their texts with bracketed vendor and driver
 tags ("[unixODBC][Driver Manager]..."); up to two such tags and one following
 space are dropped, the text is cut at its first newline, and what is left is
 cut to fit the 200-byte error buffer.
 */
module Messages {
  import opened Base
  import opened Header

  /** Longest message the error buffer holds: its size less the terminator
      (see `MessageLeavesRoomForTerminator`). */
  const MAX_MESSAGE: nat := 199

  lemma MessageLeavesRoomForTerminator()
    ensures MAX_MESSAGE + 1 == MYSQL_ERRMSG_SIZE
  {
  }

  /** Position reached after skipping at most `2 - i` leading tags from `cp`:
      a tag starts with `[` and ends at the first `]` after it. */
  function SkipTags(s: string, cp: nat, i: nat): (r: nat)
    requires cp <= |s| && i <= 2
    decreases 2 - i
    ensures cp <= r <= |s|
    ensures r > cp ==> s[cp] == '[' && s[r - 1] == ']'
  {
    if i == 2 || cp == |s| || s[cp] != '[' then cp
    else match FindChar(s, ']', cp)
      case None => cp
      case Some(j) => SkipTags(s, j + 1, i + 1)
  }

  /** What is kept once tags ending before `cp` were skipped: one space
      after them goes too, and the whole text stays if fewer than two
      characters would be left. */
  function AfterTags(s: string, cp: nat): (r: string)
    requires 0 < cp <= |s|
    ensures |r| <= |s| && r == s[|s| - |r|..]
  {
    var start := if cp < |s| && s[cp] == ' ' then cp + 1 else cp;
    if start + 1 < |s| then s[start..] else s
  }

  /** Drops up to two leading tags and then one space, provided at least two
      characters remain; otherwise the text is left as it is. */
  function StripTags(s: string): (r: string)
    ensures |r| <= |s| && r == s[|s| - |r|..]
    ensures r != s ==> |r| >= 2 && s[0] == '[' && s[|s| - |r| - 1] in {']', ' '}
  {
    var cp := SkipTags(s, 0, 0);
    if cp == 0 then s else AfterTags(s, cp)
  }

  /** The text before its first newline. */
  function CutAtNewline(s: string): (r: string)
    ensures |r| <= |s| && r == s[..|r|]
    ensures forall k :: 0 <= k < |r| ==> r[k] != '\n'
    ensures r == s || s[|r|] == '\n'
  {
    match FindChar(s, '\n', 0)
    case None => s
    case Some(i) => s[..i]
  }

  /** The message `_fetch_db_errors` stores for the first diagnostic record:
      a piece of the original text that starts where the tags end. */
  function CleanMessage(s: string): (r: string)
    ensures |r| <= MAX_MESSAGE
    ensures var line := CutAtNewline(StripTags(s));
      |r| == (if |line| <= MAX_MESSAGE then |line| else MAX_MESSAGE) && r == line[..|r|]
    ensures forall k :: 0 <= k < |r| ==> r[k] != '\n'
    ensures var k := |s| - |StripTags(s)|; k + |r| <= |s| && r == s[k..k + |r|]
  {
    var stripped := StripTags(s);
    var line := CutAtNewline(stripped);
    var r := Prefix(line, MAX_MESSAGE);
    PrefixOfTail(s, stripped, line, r);
    r
  }

  /** A prefix of a prefix of a tail of `s` is the piece of `s` that starts
      where the tail does. */
  lemma PrefixOfTail(s: string, tail: string, line: string, r: string)
    requires |tail| <= |s| && tail == s[|s| - |tail|..]
    requires |line| <= |tail| && line == tail[..|line|]
    requires |r| <= |line| && r == line[..|r|]
    ensures var k := |s| - |tail|; k + |r| <= |s| && r == s[k..k + |r|]
  {
    var k := |s| - |tail|;
    forall j | 0 <= j < |r|
      ensures r[j] == s[k + j]
    {
      assert r[j] == line[j] == tail[j];
    }
  }

  /** A bracketed tag: `[`, then anything but `]`, then `]`. */
  ghost predicate IsTag(t: string) {
    && |t| >= 2 && t[0] == '[' && t[|t| - 1] == ']'
    && forall k :: 0 <= k < |t| - 1 ==> t[k] != ']'
  }

  /** `s` does not start with a complete tag. */
  ghost predicate NoLeadingTag(s: string) {
    s == [] || s[0] != '[' || forall k :: 0 <= k < |s| ==> s[k] != ']'
  }

  /** The search for `c` from `from` stops at `j` when `j` holds the first `c`. */
  lemma FindCharAt(s: string, c: char, from: nat, j: nat)
    requires from <= j < |s| && s[j] == c
    requires forall k :: from <= k < j ==> s[k] != c
    ensures FindChar(s, c, from) == Some(j)
  {
  }

  /** Skipping one tag that starts at `cp` lands just after its `]`. */
  lemma SkipOneTag(s: string, cp: nat, t: string, i: nat)
    requires i < 2 && cp + |t| <= |s| && s[cp..cp + |t|] == t && IsTag(t)
    ensures SkipTags(s, cp, i) == SkipTags(s, cp + |t|, i + 1)
  {
    assert s[cp] == t[0];
    forall k | cp <= k < cp + |t| - 1
      ensures s[k] != ']'
    {
      assert s[k] == t[k - cp];
    }
    assert s[cp + |t| - 1] == t[|t| - 1];
    FindCharAt(s, ']', cp, cp + |t| - 1);
  }

  /** Text that does not start with `[` or holds no `]` is passed through. */
  lemma StripWithoutTag(s: string)
    requires NoLeadingTag(s)
    ensures StripTags(s) == s
  {
    if s != [] && s[0] == '[' {
      assert FindChar(s, ']', 0).None?;
    }
  }

  /** Two leading tags are skipped whole. */
  lemma SkipTwoTags(s: string, t1: string, t2: string)
    requires IsTag(t1) && IsTag(t2) && |t1| + |t2| <= |s|
    requires s[..|t1|] == t1 && s[|t1|..|t1| + |t2|] == t2
    ensures SkipTags(s, 0, 0) == |t1| + |t2|
  {
    assert s[0..|t1|] == t1;
    var cp := |t1|;
    var cp2 := |t1| + |t2|;
    SkipOneTag(s, 0, t1, 0);
    SkipOneTag(s, cp, t2, 1);
    calc {
      SkipTags(s, 0, 0);
      SkipTags(s, cp, 1);
      SkipTags(s, cp2, 2);
      cp2;
    }
  }

  /** A single leading tag not followed by another complete one is skipped
      alone. */
  lemma SkipOnlyOneTag(s: string, t: string)
    requires IsTag(t) && |t| <= |s| && s[..|t|] == t
    requires |t| == |s| || s[|t|] != '[' || forall k :: |t| <= k < |s| ==> s[k] != ']'
    ensures SkipTags(s, 0, 0) == |t|
  {
    SkipOneTag(s, 0, t, 0);
    if |t| < |s| && s[|t|] == '[' {
      assert FindChar(s, ']', |t|).None?;
    }
  }

  /** After the tags, one space goes and the rest is kept when at least two
      characters are left. */
  lemma AfterTagsDropsSpace(s: string, cp: nat, sp: string, body: string)
    requires 0 < cp <= |s| && s[cp..] == sp + body
    requires sp == "" || sp == " "
    requires sp == "" ==> body == [] || body[0] != ' '
    requires |body| >= 2
    ensures AfterTags(s, cp) == body
  {
    if sp == " " {
      assert s[cp] == (sp + body)[0];
      assert s[cp + 1..] == (sp + body)[1..];
    } else {
      assert s[cp] == body[0];
    }
  }

  /** After the tags, fewer than two remaining characters keep the text
      whole. */
  lemma AfterTagsKeepsShort(s: string, cp: nat, sp: string, body: string)
    requires 0 < cp <= |s| && s[cp..] == sp + body
    requires sp == "" || sp == " "
    requires sp == "" ==> body == [] || body[0] != ' '
    requires |body| < 2
    ensures AfterTags(s, cp) == s
  {
    if sp == " " {
      assert s[cp] == (sp + body)[0];
    } else if body != [] {
      assert s[cp] == body[0];
    }
  }

  /** Once the tags end at `cp`, stripping is what follows them. */
  lemma StripTagsAt(s: string, cp: nat)
    requires 0 < cp && SkipTags(s, 0, 0) == cp
    ensures StripTags(s) == AfterTags(s, cp)
  {
  }

  /** The layout of two tags followed by the rest of a text. */
  lemma TwoTagsLayout(t1: string, t2: string, rest: string)
    ensures var s := t1 + t2 + rest;
      s[..|t1|] == t1 && s[|t1|..|t1| + |t2|] == t2 && s[|t1| + |t2|..] == rest
  {
  }

  /** Two leading tags, then an optional space, are removed when at least two
      characters follow them; a third tag is kept. */
  lemma {:induction false} StripTwoTags(t1: string, t2: string, sp: string, body: string)
    requires IsTag(t1) && IsTag(t2)
    requires sp == "" || sp == " "
    requires sp == "" ==> body == [] || body[0] != ' '
    requires |body| >= 2
    ensures StripTags(t1 + t2 + sp + body) == body
  {
    var s := t1 + t2 + (sp + body);
    assert t1 + t2 + sp + body == s;
    TwoTagsLayout(t1, t2, sp + body);
    SkipTwoTags(s, t1, t2);
    AfterTagsDropsSpace(s, |t1| + |t2|, sp, body);
    StripTagsAt(s, |t1| + |t2|);
  }

  /** One leading tag and an optional space are removed when at least two
      characters follow; without the space the rest must not start another tag
      or a space, or it would be consumed too. */
  lemma {:induction false} StripOneTag(t1: string, sp: string, body: string)
    requires IsTag(t1)
    requires sp == "" || sp == " "
    requires sp == "" ==> NoLeadingTag(body) && (body == [] || body[0] != ' ')
    requires |body| >= 2
    ensures StripTags(t1 + sp + body) == body
  {
    var s := t1 + (sp + body);
    assert t1 + sp + body == s;
    OneTagLayout(s, t1, sp, body);
    SkipOnlyOneTag(s, t1);
    AfterTagsDropsSpace(s, |t1|, sp, body);
    StripTagsAt(s, |t1|);
  }

  /** Where the pieces of one tag, an optional space and a body sit, and
      why the scan for a second tag stops after the first. */
  lemma OneTagLayout(s: string, t1: string, sp: string, body: string)
    requires IsTag(t1)
    requires sp == "" || sp == " "
    requires sp == "" ==> NoLeadingTag(body) && (body == [] || body[0] != ' ')
    requires |body| >= 2
    requires s == t1 + (sp + body)
    ensures s[..|t1|] == t1 && s[|t1|..] == sp + body
    ensures |t1| == |s| || s[|t1|] != '[' || forall k :: |t1| <= k < |s| ==> s[k] != ']'
  {
    assert s[..|t1|] == t1 && s[|t1|..] == sp + body;
    var cp := |t1|;
    if sp == " " {
      assert s[cp] == ' ';
    } else if body[0] == '[' {
      assert forall k :: cp <= k < |s| ==> s[k] != ']' by {
        assert forall k :: cp <= k < |s| ==> s[k] == body[k - cp];
      }
    } else {
      assert s[cp] == body[0];
    }
  }

  /** Two tags with fewer than two characters after them and the optional
      space leave a text untouched. */
  lemma KeepShortAfterTwoTags(s: string, t1: string, t2: string, sp: string, body: string)
    requires IsTag(t1) && IsTag(t2)
    requires sp == "" || sp == " "
    requires sp == "" ==> body == [] || body[0] != ' '
    requires |body| < 2
    requires s == t1 + t2 + (sp + body)
    ensures StripTags(s) == s
  {
    TwoTagsLayout(t1, t2, sp + body);
    SkipTwoTags(s, t1, t2);
    AfterTagsKeepsShort(s, |t1| + |t2|, sp, body);
    StripTagsAt(s, |t1| + |t2|);
  }

  /** When fewer than two characters follow two tags and the optional space,
      nothing is removed at all. */
  lemma {:induction false} StripKeepsShortText(t1: string, t2: string, sp: string, body: string)
    requires IsTag(t1) && IsTag(t2)
    requires sp == "" || sp == " "
    requires sp == "" ==> body == [] || body[0] != ' '
    requires |body| < 2
    ensures StripTags(t1 + t2 + sp + body) == t1 + t2 + sp + body
  {
    var s := t1 + t2 + sp + body;
    assert s == t1 + t2 + (sp + body);
    KeepShortAfterTwoTags(s, t1, t2, sp, body);
  }

  /** One tag with fewer than two characters after it and the optional
      space leaves a text untouched. */
  lemma KeepShortAfterOneTag(s: string, t1: string, sp: string, body: string)
    requires IsTag(t1)
    requires sp == "" || sp == " "
    requires sp == "" ==> NoLeadingTag(body) && (body == [] || body[0] != ' ')
    requires |body| < 2
    requires s == t1 + (sp + body)
    ensures StripTags(s) == s
  {
    assert s[..|t1|] == t1 && s[|t1|..] == sp + body;
    var cp := |t1|;
    if sp == " " {
      assert s[cp] == ' ';
    } else if body != [] {
      assert s[cp] == body[0];
      if body[0] == '[' {
        assert forall k :: cp <= k < |s| ==> s[k] != ']' by {
          assert forall k :: cp <= k < |s| ==> s[k] == body[k - cp];
        }
      }
    }
    SkipOnlyOneTag(s, t1);
    AfterTagsKeepsShort(s, cp, sp, body);
    StripTagsAt(s, cp);
  }

  /** When fewer than two characters follow a single tag and the optional
      space, nothing is removed: `[a] x` stays whole. */
  lemma {:induction false} StripOneTagKeepsShortText(t1: string, sp: string, body: string)
    requires IsTag(t1)
    requires sp == "" || sp == " "
    requires sp == "" ==> NoLeadingTag(body) && (body == [] || body[0] != ' ')
    requires |body| < 2
    ensures StripTags(t1 + sp + body) == t1 + sp + body
  {
    var s := t1 + sp + body;
    assert s == t1 + (sp + body);
    KeepShortAfterOneTag(s, t1, sp, body);
  }

  /** A record longer than the slot after its tags and before its first
      newline is stored as its first 199 characters. */
  lemma CleanMessageCutsLongLine(s: string)
    requires |CutAtNewline(StripTags(s))| > MAX_MESSAGE
    ensures CleanMessage(s) == CutAtNewline(StripTags(s))[..MAX_MESSAGE]
  {
  }

  /** A short, untagged, single-line message is stored verbatim. */
  lemma CleanPlainMessage(s: string)
    requires NoLeadingTag(s)
    requires forall k :: 0 <= k < |s| ==> s[k] != '\n'
    requires |s| <= MAX_MESSAGE
    ensures CleanMessage(s) == s
  {
    StripWithoutTag(s);
    assert FindChar(s, '\n', 0).None?;
  }

  /** The stored message is the cut, untagged text whenever that fits. */
  lemma CleanMessageFits(s: string)
    requires |CutAtNewline(StripTags(s))| <= MAX_MESSAGE
    ensures CleanMessage(s) == CutAtNewline(StripTags(s))
  {
  }

  /** A single line followed by its newline is cut back to the line. */
  lemma CutTrailingNewline(body: string)
    requires forall k :: 0 <= k < |body| ==> body[k] != '\n'
    ensures CutAtNewline(body + "\n") == body
  {
    var b := body + "\n";
    FindCharAt(b, '\n', 0, |body|);
    assert b[..|body|] == body;
  }

  /** The usual driver-manager message loses both tags and its newline. */
  lemma CleanTaggedMessage(t1: string, t2: string, body: string)
    requires IsTag(t1) && IsTag(t2)
    requires |body| >= 2 && body[0] != ' '
    requires forall k :: 0 <= k < |body| ==> body[k] != '\n'
    requires |body| <= MAX_MESSAGE
    ensures CleanMessage(t1 + t2 + body + "\n") == body
  {
    var b := body + "\n";
    var x := t1 + t2 + body + "\n";
    assert x == t1 + t2 + "" + b;
    StripTwoTags(t1, t2, "", b);
    CutTrailingNewline(body);
    CleanMessageFits(x);
  }
}
