/** `get_difficulty_prompt`: the fixed instruction for the summariser, with
    a clause chosen by the requested difficulty. */
module Prompts {
  import opened PyStrings

  /** `base_prompt`; the source's line break inside the triple-quoted
      literal is a single newline. */
  const BasePrompt: string :=
    "You are a YouTube video summarizer. You will be taking the transcript text and summarizing the entire video \n"
    + "and providing the important summary in points within 500 words. Please provide the summary of the text given here: "

  const SimpleClause: string := " Use simple language that is easy to understand."
  const MediumClause: string := " Use a moderate level of language complexity."
  const HardClause: string := " Use advanced language and include technical terms if applicable."

  /** The levels offered by the difficulty select box. */
  const DifficultyLevels: seq<string> := ["Simple", "Medium", "Hard"]

  /** The prompt for a difficulty: the base text, extended by a clause for
      each of the three levels and left alone for anything else. */
  function DifficultyPrompt(difficulty: string): (r: string)
    ensures BasePrompt <= r
    ensures r == BasePrompt <==> difficulty !in DifficultyLevels
    ensures difficulty in DifficultyLevels ==> |r| > |BasePrompt|
  {
    if difficulty == "Simple" then BasePrompt + SimpleClause
    else if difficulty == "Medium" then BasePrompt + MediumClause
    else if difficulty == "Hard" then BasePrompt + HardClause
    else BasePrompt
  }

  /** What a level adds to the base text is that level's own clause. */
  lemma PromptClause(difficulty: string)
    ensures difficulty == "Simple" ==> DifficultyPrompt(difficulty)[|BasePrompt|..] == SimpleClause
    ensures difficulty == "Medium" ==> DifficultyPrompt(difficulty)[|BasePrompt|..] == MediumClause
    ensures difficulty == "Hard" ==> DifficultyPrompt(difficulty)[|BasePrompt|..] == HardClause
    ensures difficulty !in DifficultyLevels ==> DifficultyPrompt(difficulty)[|BasePrompt|..] == ""
  {
  }

  /** The three levels give three different prompts. */
  lemma PromptsDistinct(a: string, b: string)
    requires a in DifficultyLevels && b in DifficultyLevels && a != b
    ensures DifficultyPrompt(a) != DifficultyPrompt(b)
  {
  }

  /** The Hard prompt holds the advanced-language clause, right after the
      base text, and what it adds is not the simple-language clause. */
  lemma HardPromptClauses()
    ensures OccursAt(DifficultyPrompt("Hard"), HardClause, |BasePrompt|)
    ensures DifficultyPrompt("Hard")[|BasePrompt|..] != SimpleClause
  {
    var p := DifficultyPrompt("Hard");
    assert p[|BasePrompt|..|BasePrompt| + |HardClause|] == HardClause;
  }
}
