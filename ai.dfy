/**
 * The deterministic parts of drafting a commit with the chat model
 * (src/modules/ai.ts): cutting an oversized diff, choosing the prompts for
 * the selected language, and splitting the reply into a title and a
 * description.  The chat-completion call itself is an input.
 */
module Ai {
  import opened Base
  import opened Types
  import opened JsText
  import Config

  /** Appended to a diff that was cut at the size limit. */
  const TRUNCATION_MARKER: string := "... [truncated]"

  /**
   * The diff sent to the model: unchanged up to the limit, otherwise its
   * first `MAX_DIFF_LENGTH` characters followed by the marker.
   */
  function TruncateDiff(diff: string): (r: string)
    ensures |r| <= Config.MAX_DIFF_LENGTH + |TRUNCATION_MARKER|
    ensures |diff| <= Config.MAX_DIFF_LENGTH ==> r == diff
    ensures |diff| > Config.MAX_DIFF_LENGTH ==>
      && |r| == Config.MAX_DIFF_LENGTH + |TRUNCATION_MARKER|
      && r[..Config.MAX_DIFF_LENGTH] == diff[..Config.MAX_DIFF_LENGTH]
      && r[Config.MAX_DIFF_LENGTH..] == TRUNCATION_MARKER
  {
    if |diff| > Config.MAX_DIFF_LENGTH then diff[..Config.MAX_DIFF_LENGTH] + TRUNCATION_MARKER else diff
  }

  /** Cutting an already cut diff changes nothing. */
  lemma TruncateIdempotent(diff: string)
    ensures TruncateDiff(TruncateDiff(diff)) == TruncateDiff(diff)
  {
    var r := TruncateDiff(diff);
    if |diff| > Config.MAX_DIFF_LENGTH {
      assert r[..Config.MAX_DIFF_LENGTH] + TRUNCATION_MARKER == r;
    }
  }

  /** The indentation the template literals carry on their continuation lines. */
  const LINE: string := "\n           "
  const ITEM: string := "\n              "
  const SUBITEM: string := "\n                "

  // The system prompts, cut where the commit type is filled in.  The
  // quotes around the first occurrence belong to the template.

  /**
   * The opening sentences, which name the model's role in each language:
   * the subject (`EN_SUBJECT`, `ID_SUBJECT`), whose first letter already
   * tells the languages apart, and the rest of the sentence.
   */
  const EN_ROLE: string := EN_SUBJECT + " that follows conventional commits specification."
  const EN_SUBJECT: string := "You are a Git commit message generator"
  const ID_ROLE: string := ID_SUBJECT + " yang mengikuti spesifikasi conventional commits."
  const ID_SUBJECT: string := "Kamu adalah generator pesan commit Git"

  const EN_SYSTEM_HEAD: string :=
    EN_ROLE
    + LINE + "Generate a concise, clear commit message based on the git diff provided."
    + LINE + "The commit type will be "
  const EN_SYSTEM_MIDDLE: string :=
    "."
    + LINE + "Follow these guidelines:"
    + LINE + "1. Start with ONE brief subject line (max 72 chars), this is the commit message"
    + LINE + "2. Include a separate description with two sections:"
    + ITEM + "- What: Describe the changes made"
    + ITEM + "- Why: Explain the reason for the changes"
    + LINE + "3. Focus on the purpose and impact of the changes"
    + LINE + "4. Format the response as:"
    + ITEM
  const EN_SYSTEM_TAIL: string :=
    ": commit message"
    + ITEM + "Description:"
    + SUBITEM + "What:"
    + SUBITEM + "Why:"
    + LINE + "6. Keep the message professional and technical"

  const ID_SYSTEM_HEAD: string :=
    ID_ROLE
    + LINE + "Hasilkan pesan commit yang jelas dan ringkas berdasarkan git diff yang diberikan."
    + LINE + "Tipe commit akan berupa "
  const ID_SYSTEM_MIDDLE: string :=
    "."
    + LINE + "Ikuti pedoman berikut:"
    + LINE + "1. Mulai dengan SATU baris judul singkat (maksimum 72 karakter), ini adalah pesan commit"
    + LINE + "2. Sertakan deskripsi terpisah dengan dua bagian:"
    + ITEM + "- Perubahan: Jelaskan perubahan yang dilakukan"
    + ITEM + "- Alasan Perubahan: Jelaskan alasan perubahan"
    + LINE + "3. Fokus pada tujuan dan dampak perubahan"
    + LINE + "4. Format respons sebagai:"
    + ITEM
  const ID_SYSTEM_TAIL: string :=
    ": pesan commit"
    + ITEM + "Deskripsi:"
    + SUBITEM + "Perubahan:"
    + SUBITEM + "Alasan Perubahan:"
    + LINE + "5. Jaga agar pesan tetap profesional dan teknis"

  // The user prompts, cut where the diff and the quoted commit type are filled in.

  const EN_USER_HEAD: string := "Here's the git diff for my staged changes:\n\n"
  const EN_USER_MIDDLE: string := "\n\nGenerate a conventional commit message with type "
  const EN_USER_TAIL: string := ". Clearly separate the commit message (one line) and description ."

  const ID_USER_HEAD: string := "Ini adalah git diff untuk perubahan yang di-staged:\n\n"
  const ID_USER_MIDDLE: string := "\n\nHasilkan pesan commit konvensional dengan tipe "
  const ID_USER_TAIL: string := ". Pisahkan dengan jelas antara pesan commit (satu baris) dan deskripsi (format markdown)."

  /** The two messages sent to the model. */
  datatype Prompts = Prompts(system: string, user: string)

  /** The commit type in single quotes, as both prompts mention it. */
  function Quoted(commitType: string): string {
    "'" + commitType + "'"
  }

  /** The English prompts for an already cut diff. */
  function EnglishPrompts(diff: string, commitType: string): Prompts {
    Prompts(EN_SYSTEM_HEAD + Quoted(commitType) + EN_SYSTEM_MIDDLE + commitType + EN_SYSTEM_TAIL,
            EN_USER_HEAD + diff + EN_USER_MIDDLE + Quoted(commitType) + EN_USER_TAIL)
  }

  /** The Indonesian prompts for an already cut diff. */
  function IndonesianPrompts(diff: string, commitType: string): Prompts {
    Prompts(ID_SYSTEM_HEAD + Quoted(commitType) + ID_SYSTEM_MIDDLE + commitType + ID_SYSTEM_TAIL,
            ID_USER_HEAD + diff + ID_USER_MIDDLE + Quoted(commitType) + ID_USER_TAIL)
  }

  /** The language answer that selects the Indonesian prompts; every other answer gets English. */
  const INDONESIAN: string := "indonesian"

  /** The system and user prompts for a diff, a commit type and a language answer. */
  function BuildPrompts(diff: string, commitType: string, language: string): (p: Prompts)
    ensures p.system != [] && p.system[0] == if language == INDONESIAN then 'K' else 'Y'
    ensures language == INDONESIAN ==> Embeds(p, ID_USER_HEAD, ID_USER_MIDDLE, ID_SYSTEM_HEAD, TruncateDiff(diff), commitType)
    ensures language != INDONESIAN ==> Embeds(p, EN_USER_HEAD, EN_USER_MIDDLE, EN_SYSTEM_HEAD, TruncateDiff(diff), commitType)
  {
    var d := TruncateDiff(diff);
    HeadsDiffer();
    if language == INDONESIAN then
      IndonesianEmbeds(d, commitType);
      StartsWithHead(ID_SYSTEM_HEAD, Quoted(commitType), ID_SYSTEM_MIDDLE, commitType, ID_SYSTEM_TAIL);
      IndonesianPrompts(d, commitType)
    else
      EnglishEmbeds(d, commitType);
      StartsWithHead(EN_SYSTEM_HEAD, Quoted(commitType), EN_SYSTEM_MIDDLE, commitType, EN_SYSTEM_TAIL);
      EnglishPrompts(d, commitType)
  }

  /** The two languages never produce the same system prompt: one opens with `Kamu`, the other with `You`. */
  lemma LanguagesDiffer(d1: string, t1: string, d2: string, t2: string)
    ensures IndonesianPrompts(d1, t1).system != EnglishPrompts(d2, t2).system
  {
    HeadsDiffer();
    StartsWithHead(ID_SYSTEM_HEAD, Quoted(t1), ID_SYSTEM_MIDDLE, t1, ID_SYSTEM_TAIL);
    StartsWithHead(EN_SYSTEM_HEAD, Quoted(t2), EN_SYSTEM_MIDDLE, t2, EN_SYSTEM_TAIL);
  }

  /** A filled-in template starts with the first character of its head. */
  lemma StartsWithHead(head: string, x: string, middle: string, y: string, tail: string)
    requires head != []
    ensures (head + x + middle + y + tail)[0] == head[0]
  {
  }

  lemma HeadsDiffer()
    ensures ID_SYSTEM_HEAD != [] && ID_SYSTEM_HEAD[0] == 'K'
    ensures EN_SYSTEM_HEAD != [] && EN_SYSTEM_HEAD[0] == 'Y'
  {
    assert ID_SUBJECT[0] == 'K' && EN_SUBJECT[0] == 'Y';
  }

  /** The Indonesian prompts are chosen exactly for the answer `indonesian`; any other answer gets English. */
  lemma PromptLanguage(diff: string, commitType: string, language: string)
    ensures BuildPrompts(diff, commitType, language) == IndonesianPrompts(TruncateDiff(diff), commitType) <==> language == INDONESIAN
    ensures BuildPrompts(diff, commitType, language) == EnglishPrompts(TruncateDiff(diff), commitType) <==> language != INDONESIAN
  {
    LanguagesDiffer(TruncateDiff(diff), commitType, TruncateDiff(diff), commitType);
  }

  /**
   * The diff sits right after the user prompt's head and the quoted commit
   * type right after its middle part; the quoted type also sits right
   * after the system prompt's head.
   */
  predicate Embeds(p: Prompts, userHead: string, userMiddle: string, systemHead: string, diff: string, commitType: string) {
    && OccursAt(diff, p.user, |userHead|)
    && OccursAt(Quoted(commitType), p.user, |userHead| + |diff| + |userMiddle|)
    && OccursAt(Quoted(commitType), p.system, |systemHead|)
  }

  /** Where the English prompts place the diff and the commit type. */
  lemma EnglishEmbeds(diff: string, commitType: string)
    ensures Embeds(EnglishPrompts(diff, commitType), EN_USER_HEAD, EN_USER_MIDDLE, EN_SYSTEM_HEAD, diff, commitType)
  {
    FilledIn(EN_USER_HEAD, diff, EN_USER_MIDDLE, Quoted(commitType), EN_USER_TAIL);
    FilledIn(EN_SYSTEM_HEAD, Quoted(commitType), EN_SYSTEM_MIDDLE, commitType, EN_SYSTEM_TAIL);
  }

  /** Where the Indonesian prompts place the diff and the commit type. */
  lemma IndonesianEmbeds(diff: string, commitType: string)
    ensures Embeds(IndonesianPrompts(diff, commitType), ID_USER_HEAD, ID_USER_MIDDLE, ID_SYSTEM_HEAD, diff, commitType)
  {
    FilledIn(ID_USER_HEAD, diff, ID_USER_MIDDLE, Quoted(commitType), ID_USER_TAIL);
    FilledIn(ID_SYSTEM_HEAD, Quoted(commitType), ID_SYSTEM_MIDDLE, commitType, ID_SYSTEM_TAIL);
  }

  /** Where the two values filled into a template `head x middle y tail` sit. */
  lemma FilledIn(head: string, x: string, middle: string, y: string, tail: string)
    ensures OccursAt(x, head + x + middle + y + tail, |head|)
    ensures OccursAt(y, head + x + middle + y + tail, |head| + |x| + |middle|)
  {
    var s := head + x + middle + y + tail;
    assert s[|head|..|head| + |x|] == x;
    assert s[|head| + |x| + |middle|..|head| + |x| + |middle| + |y|] == y;
  }

  /** What one call of `generateCommit` does: the request it sends, if any, and the draft or the error it answers. */
  datatype Completion = Completion(request: Option<Prompts>, result: Result<GeneratedCommit>)

  /**
   * `generateCommit`: without an API key the client cannot be set up and
   * nothing is sent; otherwise the prompts are sent, and a reply, when one
   * comes back, is parsed into the draft.  `reply` is what the service
   * answers (`Failed` for a request that throws).
   */
  function GenerateCommit(diff: string, commitType: string, language: string, apiKey: Option<string>, reply: Result<Option<string>>): (c: Completion)
    ensures c.request.Some? <==> Truthy(apiKey)
    ensures c.request.Some? ==> c.request.value == BuildPrompts(diff, commitType, language)
    ensures c.result.Ok? <==> Truthy(apiKey) && reply.Ok?
    ensures c.result.Ok? ==> c.result.value == ParseDraft(reply.value)
  {
    if !Truthy(apiKey) then Completion(None, Failed)
    else
      var request := Some(BuildPrompts(diff, commitType, language));
      match reply
      case Failed => Completion(request, Failed)
      case Ok(content) => Completion(request, Ok(ParseDraft(content)))
  }

  /**
   * The piece of `s` before its first separator, found by `split`, is a
   * prefix of `s`; it is all of `s` exactly when the separator does not
   * occur, and otherwise the separator follows it.
   */
  lemma {:induction false} SplitFirstPiece(s: string, sep: char)
    ensures var p := Split(s, sep)[0];
      && |p| <= |s| && p == s[..|p|] && sep !in p
      && (sep in s <==> |p| < |s|)
      && (|p| < |s| ==> s[|p|] == sep)
  {
    if s != [] {
      SplitFirstPiece(s[1..], sep);
      if s[0] != sep {
        assert s == [s[0]] + s[1..];
      }
    }
  }

  /**
   * The draft read off the model's reply: the trimmed reply (empty when
   * there is none) is cut at its first line break; the first line, trimmed,
   * is the message and everything after it, trimmed, is the description.
   */
  function ParseDraft(reply: Option<string>): (c: GeneratedCommit)
    ensures var content := if reply.Some? then Trim(reply.value) else [];
      && '\n' !in c.message
      && IsTrimmed(c.message) && IsTrimmed(c.description)
      && (c.message == [] <==> content == [])
      && ('\n' !in content ==> c.message == content && c.description == [])
  {
    var content := if reply.Some? then Trim(reply.value) else [];
    var first := Split(content, '\n')[0];
    var c := GeneratedCommit(Trim(first), if '\n' in content then Trim(content[|first|..]) else []);
    assert '\n' !in c.message && (c.message == [] <==> content == []) by {
      SplitFirstPiece(content, '\n');
      if content != [] {
        assert first != [] && first[0] == content[0];
        NonBlankTrim(first);
      }
    }
    assert '\n' !in content ==> c.message == content by {
      if '\n' !in content {
        SplitNoSeparator(content, '\n');
        TrimOfTrimmed(content);
      }
    }
    c
  }

  /**
   * Whenever the trimmed reply holds a line break, the message is the
   * trimmed text before the first break and the description is the
   * trimmed text after it.
   */
  lemma ParseFirstLine(reply: string, m: string, rest: string)
    requires Trim(reply) == m + "\n" + rest && '\n' !in m
    ensures ParseDraft(Some(reply)) == GeneratedCommit(Trim(m), Trim(rest))
  {
    FirstLineAndRest(m, rest);
    TrimStartSkips('\n', rest);
    assert "\n" + rest == ['\n'] + rest;
  }

  /**
   * A reply with Windows line endings, a title, a blank line and a body:
   * the carriage returns are trimmed away from both.
   */
  lemma ParseDraftCrlf(title: string, body: string)
    requires title != [] && '\n' !in title && IsTrimmed(title)
    requires body != [] && IsTrimmed(body)
    ensures ParseDraft(Some(title + "\r\n\r\n" + body)) == GeneratedCommit(title, body)
  {
    var reply, m, rest := title + "\r\n\r\n" + body, title + "\r", "\r\n" + body;
    assert reply == m + "\n" + rest;
    assert IsTrimmed(reply) by {
      assert reply[0] == title[0] && reply[|reply| - 1] == body[|body| - 1];
    }
    TrimOfTrimmed(reply);
    ParseFirstLine(reply, m, rest);
    TrimCarriageReturn(title);
    TrimCrlfPrefix(body);
  }

  /** A string that begins with a character other than whitespace keeps something after `trim`. */
  lemma NonBlankTrim(s: string)
    requires s != [] && !IsWhitespace(s[0])
    ensures Trim(s) != []
  {
    assert TrimStart(s) == s;
  }

  /** A reply with a blank line between the title and the body splits into the two. */
  lemma ParseDraftExample()
    ensures ParseDraft(Some("feat: add x\n\nWhat:\n- did y")) == GeneratedCommit("feat: add x", "What:\n- did y")
  {
    var m, d := "feat: add x", "What:\n- did y";
    assert m[0] == 'f' && m[|m| - 1] == 'x' && d[0] == 'W' && d[|d| - 1] == 'y';
    assert "feat: add x\n\nWhat:\n- did y" == m + "\n\n" + d;
    ParseDraftOfMessageFile(m, d);
  }

  /** The draft of a trimmed reply `m + rest` whose first line is `m` and whose rest starts with a line break. */
  lemma ParseMessageAndRest(m: string, rest: string, s: string)
    requires s == m + "\n" + rest && IsTrimmed(s) && '\n' !in m && IsTrimmed(m)
    ensures ParseDraft(Some(s)) == GeneratedCommit(m, Trim("\n" + rest))
  {
    TrimOfTrimmed(s);
    FirstLineAndRest(m, rest);
    TrimOfTrimmed(m);
  }

  /**
   * A reply laid out the way the temporary message file is, a trimmed
   * single-line title, a blank line and a trimmed body, parses back into
   * that title and body.
   */
  lemma ParseDraftOfMessageFile(message: string, description: string)
    requires message != [] && '\n' !in message && IsTrimmed(message) && IsTrimmed(description)
    ensures ParseDraft(Some(message + "\n\n" + description)) == GeneratedCommit(message, description)
  {
    if description == [] {
      ParseTitleOnly(message, description);
    } else {
      ParseTitleAndBody(message, description);
    }
  }

  lemma ParseTitleOnly(message: string, description: string)
    requires message != [] && '\n' !in message && IsTrimmed(message) && description == []
    ensures ParseDraft(Some(message + "\n\n" + description)) == GeneratedCommit(message, description)
  {
    var s := message + "\n\n";
    assert message + "\n\n" + description == s;
    assert TrimStart(s) == s by { assert s[0] == message[0]; }
    assert TrimEnd(s) == message by { TrimEndPadded(message, "\n\n"); }
  }

  lemma ParseTitleAndBody(message: string, description: string)
    requires message != [] && '\n' !in message && IsTrimmed(message)
    requires description != [] && IsTrimmed(description)
    ensures ParseDraft(Some(message + "\n\n" + description)) == GeneratedCommit(message, description)
  {
    var rest := "\n" + description;
    var s := message + "\n" + rest;
    assert s == message + "\n\n" + description;
    assert IsTrimmed(s) by {
      assert s[0] == message[0];
      assert s[|s| - 1] == description[|description| - 1];
    }
    ParseMessageAndRest(message, rest, s);
    TrimLeadingBreaks(description);
  }

}
