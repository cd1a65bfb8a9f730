/** The prompt texts for a text-generation call and the finalisation of a
    generated fortune text (api/src/prompt.ts). */
module Prompt {
  import opened JsString

  /** The closing "for entertainment purposes only" phrase. */
  const Disclaimer: string := "Sadece eğlence amaçlıdır."

  /** The last line of the system prompt, which asks for the disclaimer. */
  const DisclaimerLine: string := "- Sonda kısa bir uyarı: \"" + Disclaimer + "\""

  const SystemPromptLines: seq<string> := [
    "Sen eğlenceli bir \"isim falı\" metni üreten asistansın.",
    "- Nazik, pozitif ve kapsayıcı ol.",
    "- Bilimsel kesinlik/kehanet iddiası yok; eğlence amaçlı olduğunu belirt.",
    "- Kişisel/özel veri isteme.",
    "- Türkçe yaz (kullanıcı dili farklı belirtilmedikçe).",
    "",
    "Çıktı formatı:",
    "- 1 adet tek paragraf metin (~120–180 kelime).",
    DisclaimerLine
  ]

  /** The nine lines joined by newlines; the last line asks for the disclaimer. */
  function BuildSystemPrompt(): (r: string)
    ensures EndsWith(r, DisclaimerLine)
  {
    JoinLast(SystemPromptLines, "\n");
    EndsWithConcat(Join(SystemPromptLines[..8], "\n") + "\n", DisclaimerLine);
    Join(SystemPromptLines, "\n")
  }

  /** The system prompt ends with the line naming the disclaimer that
      FinalizeFortuneText appends, so it contains that disclaimer. */
  lemma SystemPromptNamesDisclaimer()
    ensures Includes(BuildSystemPrompt(), Disclaimer)
  {
    var head := Join(SystemPromptLines[..8], "\n") + "\n";
    JoinLast(SystemPromptLines, "\n");
    assert BuildSystemPrompt() == head + DisclaimerLine;
    var quoteOpen := "- Sonda kısa bir uyarı: \"";
    assert BuildSystemPrompt() == (head + quoteOpen) + Disclaimer + "\"";
    IncludesInfix(head + quoteOpen, Disclaimer, "\"");
  }

  const UserPromptHead: string := "İsim: "
  const UserPromptTail: string := "\nBu isimden ilham alarak sıcak ve pozitif bir yorum üret."

  /** The user prompt: the fixed head, the name verbatim, a newline and a fixed sentence. */
  function BuildUserPrompt(name: string): (r: string)
    ensures UserPromptHead <= r && EndsWith(r, UserPromptTail)
    ensures |r| == |UserPromptHead| + |name| + |UserPromptTail|
    ensures r[|UserPromptHead|..|r| - |UserPromptTail|] == name
  {
    UserPromptHead + name + UserPromptTail
  }

  /** Different names give different user prompts. */
  lemma UserPromptInjective(a: string, b: string)
    requires BuildUserPrompt(a) == BuildUserPrompt(b)
    ensures a == b
  {
    var ra, rb := BuildUserPrompt(a), BuildUserPrompt(b);
    assert ra[|UserPromptHead|..|ra| - |UserPromptTail|] == a;
  }

  /** The last character is a period. */
  predicate EndsInPeriod(s: string) {
    |s| > 0 && s[|s| - 1] == '.'
  }

  /** `normalized.endsWith('.') ? '' : '.'` */
  function PeriodIfMissing(normalized: string): (p: string)
    ensures p == "" || p == "."
    ensures p == "" <==> EndsInPeriod(normalized)
  {
    if EndsWith(normalized, ".") then "" else "."
  }

  lemma DisclaimerEndsWithPeriod()
    ensures EndsInPeriod(Disclaimer)
  {
  }

  /** Trims a generated text and appends the disclaimer unless the text
      already contains it in any letter case. */
  function FinalizeFortuneText(lower: char -> string, text: string): (r: string)
    ensures NoEdgeWhitespace(r)
    ensures Trim(text) <= r
    ensures Includes(Lower(lower, r), Lower(lower, Disclaimer))
    ensures Includes(Lower(lower, Trim(text)), Lower(lower, Disclaimer)) ==> r == Trim(text)
    ensures !Includes(Lower(lower, Trim(text)), Lower(lower, Disclaimer)) ==>
      r == Trim(text) + PeriodIfMissing(Trim(text)) + " " + Disclaimer
  {
    var normalized := Trim(text);
    if Includes(Lower(lower, normalized), Lower(lower, Disclaimer)) then
      normalized
    else
      DisclaimerEndsWithPeriod();
      AppendedIsTrimmed(lower, normalized, PeriodIfMissing(normalized), Disclaimer);
      Trim(normalized + PeriodIfMissing(normalized) + " " + Disclaimer)
  }

  lemma AppendedEdges(normalized: string, period: string, d: string)
    requires NoEdgeWhitespace(normalized)
    requires period == "" || period == "."
    requires normalized == [] ==> period == "."
    requires EndsInPeriod(d)
    ensures NoEdgeWhitespace(normalized + period + " " + d)
    ensures normalized <= normalized + period + " " + d
  {
    var appended := normalized + period + " " + d;
    assert appended[|appended| - 1] == d[|d| - 1];
    if normalized == [] {
      assert appended[0] == '.';
    } else {
      assert appended[0] == normalized[0];
    }
    assert appended[..|normalized|] == normalized;
  }

  /** `normalized`, a period or nothing, a space and `d`: the final `trim` is
      a no-op because `d` ends in a non-whitespace character. */
  lemma AppendedIsTrimmed(lower: char -> string, normalized: string, period: string, d: string)
    requires NoEdgeWhitespace(normalized)
    requires period == "" || period == "."
    requires normalized == [] ==> period == "."
    requires EndsInPeriod(d)
    ensures Trim(normalized + period + " " + d) == normalized + period + " " + d
    ensures normalized <= normalized + period + " " + d
    ensures Includes(Lower(lower, normalized + period + " " + d), Lower(lower, d))
  {
    AppendedEdges(normalized, period, d);
    TrimOfTrimmed(normalized + period + " " + d);
    IncludesLowered(lower, normalized + period + " ", d);
  }

  /** Finalising a finalised text changes nothing. */
  lemma FinalizeIdempotent(lower: char -> string, text: string)
    ensures FinalizeFortuneText(lower, FinalizeFortuneText(lower, text)) == FinalizeFortuneText(lower, text)
  {
    var r := FinalizeFortuneText(lower, text);
    TrimOfTrimmed(r);
  }

  /** A text that starts with a non-whitespace character and ends with the
      disclaimer is already final. */
  lemma FinalizeKeepsDisclaimed(lower: char -> string, a: string)
    requires a != [] && !IsWhitespace(a[0])
    ensures FinalizeFortuneText(lower, a + Disclaimer) == a + Disclaimer
  {
    var text := a + Disclaimer;
    DisclaimerEndsWithPeriod();
    assert text[0] == a[0] && text[|text| - 1] == '.';
    TrimOfTrimmed(text);
    IncludesLowered(lower, a, Disclaimer);
  }

  /** An empty or whitespace-only text becomes the bare disclaimer after a
      period: exactly ". Sadece eğlence amaçlıdır.". */
  lemma FinalizeWhitespaceOnly(lower: char -> string, text: string)
    requires forall c :: lower(c) != []
    requires AllWhitespace(text)
    ensures FinalizeFortuneText(lower, text) == ". " + Disclaimer
  {
    TrimEmptyIff(text);
    DisclaimerEndsWithPeriod();
    NonEmptyLowered(lower, Disclaimer);
    EmptyIncludesOnlyEmpty(Lower(lower, Disclaimer));
    PeriodAfterEmpty(Disclaimer);
  }

  lemma NonEmptyLowered(lower: char -> string, s: string)
    requires forall c :: lower(c) != []
    requires s != []
    ensures Lower(lower, s) != []
  {
    assert lower(s[0]) != [];
  }

  lemma EmptyIncludesOnlyEmpty(t: string)
    requires t != []
    ensures !Includes([], t)
  {
  }

  lemma PeriodAfterEmpty(d: string)
    ensures [] + "." + " " + d == ". " + d
  {
  }

  lemma PeriodThenDisclaimer(n: string, period: string, d: string)
    requires period == "" || period == "."
    requires period == "" <==> EndsInPeriod(n)
    ensures EndsWith(n + period + " " + d, ". " + d)
  {
    var r := n + period + " " + d;
    var t := ". " + d;
    var k := |r| - |t|;
    assert r[k] == '.';
    forall i | 0 <= i < |t| ensures r[k..][i] == t[i] {
      if i > 0 { assert r[k + i] == t[i]; }
    }
    assert r[k..] == t;
  }

  /** When the disclaimer is appended, a period and a space stand right before it. */
  lemma FinalizePeriodBeforeDisclaimer(lower: char -> string, text: string)
    requires !Includes(Lower(lower, Trim(text)), Lower(lower, Disclaimer))
    ensures EndsWith(FinalizeFortuneText(lower, text), ". " + Disclaimer)
  {
    PeriodThenDisclaimer(Trim(text), PeriodIfMissing(Trim(text)), Disclaimer);
  }
}
