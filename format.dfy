/** Menu labels and the plain-text rendering of a draft (src/utils/format.ts). */
module Format {
  import opened Base
  import opened Types
  import opened JsText
  import Config

  /** Width the commit-type value is padded to, so that the descriptions line up. */
  const VALUE_COLUMN_WIDTH: nat := 8

  /** A template literal renders an absent emoji as the text `undefined`. */
  function EmojiText(emoji: Option<string>): string {
    match emoji
    case Some(e) => e
    case None => "undefined"
  }

  /** The text of a commit-type entry: emoji, padded value, then the description. */
  function CommitTypeLabel(t: CommitType): string {
    EmojiText(t.emoji) + " " + PadEnd(t.value, VALUE_COLUMN_WIDTH) + " - " + t.description
  }

  /** `formatCommitTypeOptions`: one entry per type, in order, answering with the type's value. */
  function FormatCommitTypeOptions(types: seq<CommitType>): (menu: seq<MenuEntry>)
    ensures |menu| == |types|
    ensures forall i :: 0 <= i < |types| ==> menu[i].value == types[i].value
    ensures forall i :: 0 <= i < |types| ==> menu[i].name == CommitTypeLabel(types[i])
  {
    seq(|types|, i requires 0 <= i < |types| => MenuEntry(CommitTypeLabel(types[i]), types[i].value))
  }

  /** `formatLanguageOptions`: one entry per language, in order, labelled flag then name. */
  function FormatLanguageOptions(languages: seq<LanguageOption>): (menu: seq<MenuEntry>)
    ensures |menu| == |languages|
    ensures forall i :: 0 <= i < |languages| ==> menu[i].value == languages[i].value
    ensures forall i :: 0 <= i < |languages| ==> menu[i].name == languages[i].flag + " " + languages[i].name
  {
    seq(|languages|, i requires 0 <= i < |languages| => MenuEntry(languages[i].flag + " " + languages[i].name, languages[i].value))
  }

  /** The answers a formatted menu can return. */
  function MenuValues(menu: seq<MenuEntry>): (values: seq<string>)
    ensures |values| == |menu|
    ensures forall i :: 0 <= i < |menu| ==> values[i] == menu[i].value
  {
    seq(|menu|, i requires 0 <= i < |menu| => menu[i].value)
  }

  /**
   * Where the parts of a commit-type text sit: after the emoji and a space
   * comes the value, padded with spaces to at least eight characters, then
   * `" - "` and the description.
   */
  lemma CommitTypeLabelLayout(t: CommitType)
    ensures var text := CommitTypeLabel(t); var k := |EmojiText(t.emoji)| + 1; var w := |PadEnd(t.value, VALUE_COLUMN_WIDTH)|;
      && w >= VALUE_COLUMN_WIDTH && w >= |t.value|
      && |text| == k + w + 3 + |t.description|
      && text[..k] == EmojiText(t.emoji) + " "
      && text[k..k + |t.value|] == t.value
      && (forall i :: k + |t.value| <= i < k + w ==> text[i] == ' ')
      && text[k + w..k + w + 3] == " - "
      && text[k + w + 3..] == t.description
  {
    var e, p := EmojiText(t.emoji), PadEnd(t.value, VALUE_COLUMN_WIDTH);
    var text, k, w := CommitTypeLabel(t), |e| + 1, |p|;
    assert text == (e + " ") + p + " - " + t.description;
    assert text[k..k + w] == p;
    assert p[..|t.value|] == t.value;
  }

  /** With one-character emoji and values of at most eight characters, every separator sits in the same column. */
  lemma SeparatorColumn(t: CommitType)
    requires t.emoji.Some? && |t.emoji.value| == 1
    requires |t.value| <= VALUE_COLUMN_WIDTH
    ensures CommitTypeLabel(t)[10..13] == " - "
    ensures CommitTypeLabel(t)[13..] == t.description
  {
    CommitTypeLabelLayout(t);
  }

  /** The configured commit-type menu is a column layout: every description starts at the same place. */
  lemma ConfiguredMenuAligned()
    ensures var menu := FormatCommitTypeOptions(Config.COMMIT_TYPES);
      && |menu| == 11
      && forall i :: 0 <= i < |menu| ==> menu[i].name[10..13] == " - " && menu[i].name[13..] == Config.COMMIT_TYPES[i].description
  {
    var types := Config.COMMIT_TYPES;
    forall i | 0 <= i < |types|
      ensures CommitTypeLabel(types[i])[10..13] == " - " && CommitTypeLabel(types[i])[13..] == types[i].description
    {
      assert types[i].emoji.Some? && |types[i].emoji.value| == 1 && |types[i].value| <= 8;
      SeparatorColumn(types[i]);
    }
  }

  /** The language menu answers `english` or `indonesian`, in that order. */
  lemma ConfiguredLanguageValues()
    ensures MenuValues(FormatLanguageOptions(Config.LANGUAGE_OPTIONS)) == ["english", "indonesian"]
  {
  }

  /** The label before the message, and the blank line and label before the description. */
  const OUTPUT_HEAD: string := "Commit message:\n"
  const OUTPUT_MIDDLE: string := "\n\nCommit description:\n"

  /** `formatCommitOutput`: the two labelled sections of a draft. */
  function FormatCommitOutput(message: string, description: string): (r: string)
    ensures |OUTPUT_HEAD| <= |r| && r[..|OUTPUT_HEAD|] == OUTPUT_HEAD
    ensures '\n' !in message ==> Split(r[|OUTPUT_HEAD|..], '\n')[0] == message
    ensures |description| <= |r| && r[|r| - |description|..] == description
  {
    var r := OUTPUT_HEAD + message + OUTPUT_MIDDLE + description;
    var tail := OUTPUT_MIDDLE[1..] + description;
    assert OUTPUT_MIDDLE == ['\n'] + OUTPUT_MIDDLE[1..];
    assert r[|OUTPUT_HEAD|..] == message + ['\n'] + tail;
    assert '\n' !in message ==> Split(r[|OUTPUT_HEAD|..], '\n')[0] == message by {
      if '\n' !in message {
        SplitAtFirst(message, '\n', tail);
      }
    }
    r
  }

  /**
   * The whole template by position: the message label, the message, the
   * blank line and description label, and the description.
   */
  lemma OutputLayout(m: string, d: string)
    ensures var r, h, k := FormatCommitOutput(m, d), |OUTPUT_HEAD|, |OUTPUT_MIDDLE|;
      && |r| == h + |m| + k + |d|
      && r[..h] == OUTPUT_HEAD
      && r[h..h + |m|] == m
      && r[h + |m|..h + |m| + k] == OUTPUT_MIDDLE
      && r[h + |m| + k..] == d
  {
    var r, h := FormatCommitOutput(m, d), |OUTPUT_HEAD|;
    var k := |OUTPUT_MIDDLE|;
    assert r == OUTPUT_HEAD + m + OUTPUT_MIDDLE + d;
    assert r[h..h + |m|] == m;
    assert r[h + |m|..h + |m| + k] == OUTPUT_MIDDLE;
    assert r[h + |m| + k..] == d;
  }

  /** After the first label comes the message, then a line break. */
  lemma OutputShape(m: string, d: string)
    ensures FormatCommitOutput(m, d)[|OUTPUT_HEAD|..] == m + ['\n'] + (OUTPUT_MIDDLE[1..] + d)
  {
    assert OUTPUT_MIDDLE == ['\n'] + OUTPUT_MIDDLE[1..];
    assert FormatCommitOutput(m, d) == OUTPUT_HEAD + (m + ['\n'] + (OUTPUT_MIDDLE[1..] + d));
  }

  /** A single-line title and its description can be read back off the rendered text. */
  lemma FormatCommitOutputInjective(m1: string, d1: string, m2: string, d2: string)
    requires '\n' !in m1 && '\n' !in m2
    requires FormatCommitOutput(m1, d1) == FormatCommitOutput(m2, d2)
    ensures m1 == m2 && d1 == d2
  {
    var body := FormatCommitOutput(m1, d1)[|OUTPUT_HEAD|..];
    OutputShape(m1, d1);
    OutputShape(m2, d2);
    var tail := OUTPUT_MIDDLE[1..];
    SplitAtFirst(m1, '\n', tail + d1);
    SplitAtFirst(m2, '\n', tail + d2);
    assert m1 == Split(body, '\n')[0] == m2;
    assert tail + d1 == body[|m1| + 1..] == tail + d2;
    assert d1 == (tail + d1)[|tail|..];
    assert d2 == (tail + d2)[|tail|..];
  }
}
