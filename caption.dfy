/**
 * The optional promotional caption. Only the decision to ask the text
 * service, and the request it would be sent, are modelled; the service's
 * reply arrives as a parameter.
 */
module Caption {
  import opened Wrappers
  import opened PyText
  import opened Jackpot

  /** The smallest jackpot for which a caption is requested (inclusive). */
  const Threshold: nat := 3000000

  /** Token budget requested for the caption. */
  const MaxOutputTokens: nat := 30

  /** What would be sent to the text service: the key, the prompt and the token budget. */
  datatype CaptionRequest = CaptionRequest(apiKey: string, prompt: string, maxOutputTokens: nat)

  const PromptLead: string := "TOTO jackpot "

  const PromptInstruction: string :=
    ". Write ONE Singlish sentence (10\U{2013}14 words) encouraging to buy, with increasing excitement for bigger jackpots. "
    + "No emojis, no profanity."

  /** The fixed prompt, parameterised only by the rendered jackpot. */
  function Prompt(jackpot: nat): (p: string)
    ensures PromptLead + Render(jackpot) <= p
  {
    var lead := PromptLead + Render(jackpot);
    assert (lead + PromptInstruction)[..|lead|] == lead;
    lead + PromptInstruction
  }

  /**
   * Whether a caption is requested at all: only for a jackpot of at least
   * three million and only with a non-empty API key; otherwise the caption
   * is empty before any request is built.
   */
  function CaptionGate(jackpot: nat, apiKey: Option<string>): (r: Option<CaptionRequest>)
    ensures r.Some? <==> Threshold <= jackpot && apiKey.Some? && apiKey.value != ""
    ensures r.Some? ==> r.value.apiKey == apiKey.value && r.value.maxOutputTokens == MaxOutputTokens
    ensures r.Some? ==> r.value.prompt == Prompt(jackpot)
  {
    if jackpot < Threshold then None
    else if apiKey == None || apiKey.value == "" then None
    else Some(CaptionRequest(apiKey.value, Prompt(jackpot), MaxOutputTokens))
  }

  /**
   * The caption. `reply` is the text the service answered with, on either
   * of the source's two extraction paths, or None when neither produced
   * one; the caption is that text stripped, and empty whenever the gate
   * closes.
   */
  function GenerateComment(jackpot: nat, apiKey: Option<string>, reply: Option<string>): (c: string)
    ensures jackpot < Threshold ==> c == ""
    ensures apiKey == None || apiKey == Some("") ==> c == ""
    ensures c != "" ==> CaptionGate(jackpot, apiKey).Some? && reply.Some?
    ensures CaptionGate(jackpot, apiKey).Some? && reply.Some? ==> c == Strip(reply.value)
    ensures IsStripped(c)
  {
    match CaptionGate(jackpot, apiKey)
    case None => ""
    case Some(_) =>
      match reply
      case None => ""
      case Some(text) => Strip(text)
  }
}
