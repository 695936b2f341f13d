/**
 * The automatic reply: an ordered keyword rule list over the lower-cased
 * input. Schedule questions win over pricing, pricing over thanks, and
 * anything else gets the default reply.
 */
module Replies {
  import opened TextOps

  const ScheduleReply: string := "Nosso horário de atendimento é de segunda a sexta, das 09:00 às 18:00."
  const PricingReply: string := "Temos vários planos. Quer saber sobre planos disponíveis? Posso encaminhar para o setor responsável."
  const GratitudeReply: string := "De nada! Fico feliz em ajudar. Posso ajudar em mais alguma coisa?"
  const DefaultReply: string := "Obrigado pela mensagem! Em instantes um atendente humano irá te auxiliar. Enquanto isso, posso ajudar com algo rápido?"

  /** First rule: the lower-cased text asks about opening hours. */
  predicate AsksSchedule(s: string)
  {
    Contains(s, "horário") || Contains(s, "horario") || Contains(s, "horários")
  }

  /** Second rule: the lower-cased text asks about prices. */
  predicate AsksPricing(s: string)
  {
    Contains(s, "preço") || Contains(s, "valor") || Contains(s, "custo")
  }

  /** Third rule: the lower-cased text thanks. */
  predicate GivesThanks(s: string)
  {
    Contains(s, "obrig") || Contains(s, "obrigado")
  }

  /** `autoReplyText`: the first rule that matches the lower-cased text picks the reply. */
  function AutoReplyText(userText: string): (r: string)
    ensures r in {ScheduleReply, PricingReply, GratitudeReply, DefaultReply}
  {
    var s := Lower(userText);
    if AsksSchedule(s) then ScheduleReply
    else if AsksPricing(s) then PricingReply
    else if GivesThanks(s) then GratitudeReply
    else DefaultReply
  }

  // ---------------------------------------------------------------- lemmas

  /** The four replies are different texts, so a reply tells which rule fired. */
  lemma RepliesDistinct()
    ensures ScheduleReply != PricingReply && ScheduleReply != GratitudeReply && ScheduleReply != DefaultReply
    ensures PricingReply != GratitudeReply && PricingReply != DefaultReply
    ensures GratitudeReply != DefaultReply
  {
    assert |ScheduleReply| == 70 && |PricingReply| == 100;
    assert |GratitudeReply| == 65 && |DefaultReply| == 118;
  }

  /**
   * First match wins, stated as the reply each input gets in terms of which
   * rules its lower-cased text meets: schedule beats pricing and thanks,
   * pricing beats thanks, and no keyword gives the default.
   */
  lemma FirstMatchWins(userText: string)
    ensures var s := Lower(userText);
      (AutoReplyText(userText) == ScheduleReply <==> AsksSchedule(s))
      && (AutoReplyText(userText) == PricingReply <==> !AsksSchedule(s) && AsksPricing(s))
      && (AutoReplyText(userText) == GratitudeReply <==> !AsksSchedule(s) && !AsksPricing(s) && GivesThanks(s))
      && (AutoReplyText(userText) == DefaultReply <==> !AsksSchedule(s) && !AsksPricing(s) && !GivesThanks(s))
  {
    RepliesDistinct();
  }

  /** A text `k` occurs in `s` whenever a text that starts with `k` occurs in `s`. */
  lemma {:induction false} ContainsPrefixOf(s: string, k: string, longer: string)
    requires |k| <= |longer| && longer[..|k|] == k
    requires Contains(s, longer)
    ensures Contains(s, k)
  {
    var i: nat :| OccursAt(s, longer, i);
    assert s[i..i + |k|] == longer[..|k|];
    assert OccursAt(s, k, i);
  }

  /**
   * The third schedule keyword and the second thanks keyword can never decide
   * a reply: "horários" contains "horário" and "obrigado" contains "obrig".
   */
  lemma RedundantKeywords(s: string)
    ensures Contains(s, "horários") ==> Contains(s, "horário")
    ensures Contains(s, "obrigado") ==> Contains(s, "obrig")
  {
    if Contains(s, "horários") {
      ContainsPrefixOf(s, "horário", "horários");
    }
    if Contains(s, "obrigado") {
      ContainsPrefixOf(s, "obrig", "obrigado");
    }
  }

  /** Upper-case letters, accented ones included, do not defeat the rules. */
  lemma {:induction false} UpperCaseSchedule(text: string)
    requires text == "HORÁRIO?"
    ensures AutoReplyText(text) == ScheduleReply
  {
    var s := Lower(text);
    assert s[0] == 'h' && s[1] == 'o' && s[2] == 'r' && s[3] == '\U{E1}' && s[4] == 'r' && s[5] == 'i' && s[6] == 'o';
    assert OccursAt(s, "horário", 0);
  }

  /** A keyword that has a character the text lacks does not occur in it. */
  lemma MissingCharRulesOut(s: string, k: string, c: char)
    requires c in k && c !in s
    ensures !Contains(s, k)
  {
    var j :| 0 <= j < |k| && k[j] == c;
    forall i: nat | i + |k| <= |s|
      ensures !OccursAt(s, k, i)
    {
      assert s[i..i + |k|][j] == s[i + j];
    }
  }

  /** Text that is already lower case is its own lower-cased form. */
  lemma LowerOfLowerCase(t: string)
    requires forall i :: 0 <= i < |t| ==> LowerChar(t[i]) == t[i]
    ensures Lower(t) == t
  {
  }

  /** Worked example: a question about opening hours, capitalised. */
  lemma {:induction false} ScheduleExample(text: string)
    requires text == "Qual o horário de atendimento?"
    ensures AutoReplyText(text) == ScheduleReply
  {
    var s := Lower(text);
    assert s[7] == 'h' && s[8] == 'o' && s[9] == 'r' && s[10] == '\U{E1}' && s[11] == 'r' && s[12] == 'i' && s[13] == 'o';
    assert OccursAt(s, "horário", 7);
  }

  /** Every schedule keyword has an `h`. */
  lemma NoScheduleWithoutH(s: string)
    requires 'h' !in s
    ensures !AsksSchedule(s)
  {
    MissingCharRulesOut(s, "horário", 'h');
    MissingCharRulesOut(s, "horario", 'h');
    MissingCharRulesOut(s, "horários", 'h');
  }

  /** Every pricing keyword has a `p`, a `v` or a `c`. */
  lemma NoPricingWithoutPVC(s: string)
    requires 'p' !in s && 'v' !in s && 'c' !in s
    ensures !AsksPricing(s)
  {
    MissingCharRulesOut(s, "preço", 'p');
    MissingCharRulesOut(s, "valor", 'v');
    MissingCharRulesOut(s, "custo", 'c');
  }

  /** Every thanks keyword has a `b`. */
  lemma NoThanksWithoutB(s: string)
    requires 'b' !in s
    ensures !GivesThanks(s)
  {
    MissingCharRulesOut(s, "obrig", 'b');
    MissingCharRulesOut(s, "obrigado", 'b');
  }

  /** Worked example: a question about prices. */
  lemma {:induction false} PricingExample(text: string)
    requires text == "qual o preço?"
    ensures AutoReplyText(text) == PricingReply
  {
    var s := text;
    LowerOfLowerCase(s);
    NoScheduleWithoutH(s);
    assert OccursAt(s, "preço", 7);
  }

  /** Worked example: thanks. */
  lemma {:induction false} GratitudeExample(text: string)
    requires text == "obrigado"
    ensures AutoReplyText(text) == GratitudeReply
  {
    var s := text;
    LowerOfLowerCase(s);
    NoScheduleWithoutH(s);
    NoPricingWithoutPVC(s);
    assert OccursAt(s, "obrig", 0);
  }

  /** Worked example: no keyword at all. */
  lemma {:induction false} DefaultExample(text: string)
    requires text == "xyz"
    ensures AutoReplyText(text) == DefaultReply
  {
    var s := text;
    LowerOfLowerCase(s);
    NoScheduleWithoutH(s);
    NoPricingWithoutPVC(s);
    NoThanksWithoutB(s);
  }
}
