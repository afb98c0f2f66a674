/** The text sent to the completion service as the user turn: a fixed
    template with three slots filled from the repository's metadata. */
module Prompt {
  import opened Js

  /** The metadata taken from the GitHub API response. */
  datatype RepoInfo = RepoInfo(name: JsValue, description: JsValue, language: JsValue)

  const NoDescription: string := "No description available"
  const NoLanguage: string := "Not specified"

  /** The template text around the three slots. */
  const Opening: string := "Generate a comprehensive and detailed README for the GitHub repository named '"
  const DescriptionLabel: string := "'.\n\nRepository description: "
  const LanguageLabel: string := "\nMain language: "
  const Outline: string := "\n\n" + @"Create an extensive README that includes:

1. Project Title and Description:
   - A clear, concise title
   - A detailed description of the project's purpose and functionality

2. Features:
   - A comprehensive list of features
   - Brief explanations of key functionalities

3. Technologies Used:
   - List all major technologies, frameworks, and libraries used

4. Prerequisites:
   - Any system requirements or dependencies

5. Installation:
   - Step-by-step installation instructions
   - Include any necessary commands

6. Configuration:
   - Instructions for any required configuration or environment setup

7. Usage:
   - Detailed examples of how to use the project
   - Include code snippets where appropriate

8. API Reference (if applicable):
   - Overview of available endpoints or functions
   - Parameters and return values

9. Testing:
   - Instructions on how to run tests

10. Contributing:
    - Guidelines for contributors
    - Code of conduct
    - How to submit pull requests

11. License:
    - Specify the license and link to the full license file

12. Contact Information:
    - How to reach the maintainers

13. Acknowledgments:
    - Credits to contributors or third-party resources

Format the README in Markdown, use appropriate headings, and include code blocks where necessary. Aim for a professional, well-structured document that's easy to read and navigate."

  /** The name slot: the name as interpolated, even when it is `null` or absent. */
  function NameText(info: RepoInfo): string {
    Interpolate(info.name)
  }

  /** The description slot: the description when it is a non-empty string. */
  function DescriptionText(info: RepoInfo): string {
    OrElse(info.description, NoDescription)
  }

  /** The language slot: the language when it is a non-empty string. */
  function LanguageText(info: RepoInfo): string {
    OrElse(info.language, NoLanguage)
  }

  /** The template with its three slots and its closing text given. */
  function Fill(name: string, description: string, language: string, outline: string): string {
    Opening + name + DescriptionLabel + description + LanguageLabel + language + outline
  }

  /** The prompt: a pure function of the three slots. It opens with the
      name and closes with the static outline. */
  function Render(info: RepoInfo): string {
    Fill(NameText(info), DescriptionText(info), LanguageText(info), Outline)
  }

  /** The prompt opens with the name, exactly as interpolated, and closes
      with the static outline. */
  lemma RenderFraming(info: RepoInfo)
    ensures Render(info)[..|Opening| + |NameText(info)|] == Opening + NameText(info)
    ensures |Render(info)| >= |Outline|
    ensures Render(info)[|Render(info)| - |Outline|..] == Outline
  {
  }

  /** A filled template starts with the opening and the name and ends with
      its closing text. */
  lemma FillFraming(name: string, description: string, language: string, outline: string)
    ensures var t := Fill(name, description, language, outline);
      && t[..|Opening| + |name|] == Opening + name
      && |t| >= |outline| && t[|t| - |outline|..] == outline
  {
  }

  /** Text between a fixed prefix and a fixed suffix is determined by the whole. */
  lemma CancelFrame(p: string, x: string, y: string, q: string)
    requires p + x + q == p + y + q
    ensures x == y
  {
    var w := p + x + q;
    assert |x| == |y|;
    assert w[|p|..|p| + |x|] == x;
    assert (p + y + q)[|p|..|p| + |y|] == y;
  }

  /** Each slot of a filled template is determined by the whole text once the
      other two slots are fixed. */
  lemma FillSlotsDecide(n: string, n': string, d: string, d': string, l: string, l': string, o: string)
    ensures n == n' && d == d' ==> (Fill(n, d, l, o) == Fill(n', d', l', o) <==> l == l')
    ensures n == n' && l == l' ==> (Fill(n, d, l, o) == Fill(n', d', l', o) <==> d == d')
    ensures d == d' && l == l' ==> (Fill(n, d, l, o) == Fill(n', d', l', o) <==> n == n')
  {
    if n == n' && d == d' && Fill(n, d, l, o) == Fill(n', d', l', o) {
      var p := Opening + n + DescriptionLabel + d + LanguageLabel;
      assert Fill(n, d, l, o) == p + l + o;
      assert Fill(n', d', l', o) == p + l' + o;
      CancelFrame(p, l, l', o);
    }
    if n == n' && l == l' && Fill(n, d, l, o) == Fill(n', d', l', o) {
      var p := Opening + n + DescriptionLabel;
      var q := LanguageLabel + l + o;
      assert Fill(n, d, l, o) == p + d + q;
      assert Fill(n', d', l', o) == p + d' + q;
      CancelFrame(p, d, d', q);
    }
    if d == d' && l == l' && Fill(n, d, l, o) == Fill(n', d', l', o) {
      var q := DescriptionLabel + d + LanguageLabel + l + o;
      assert Fill(n, d, l, o) == Opening + n + q;
      assert Fill(n', d', l', o) == Opening + n' + q;
      CancelFrame(Opening, n, n', q);
    }
  }

  /** With the name and language fixed, two prompts agree exactly when their
      description slots agree. */
  lemma DescriptionSlotDecides(a: RepoInfo, b: RepoInfo)
    requires NameText(a) == NameText(b) && LanguageText(a) == LanguageText(b)
    ensures Render(a) == Render(b) <==> DescriptionText(a) == DescriptionText(b)
  {
    FillSlotsDecide(NameText(a), NameText(b), DescriptionText(a), DescriptionText(b),
      LanguageText(a), LanguageText(b), Outline);
  }

  /** With the name and description fixed, two prompts agree exactly when
      their language slots agree. */
  lemma LanguageSlotDecides(a: RepoInfo, b: RepoInfo)
    requires NameText(a) == NameText(b) && DescriptionText(a) == DescriptionText(b)
    ensures Render(a) == Render(b) <==> LanguageText(a) == LanguageText(b)
  {
    FillSlotsDecide(NameText(a), NameText(b), DescriptionText(a), DescriptionText(b),
      LanguageText(a), LanguageText(b), Outline);
  }

  /** With the description and language fixed, two prompts agree exactly when
      their names interpolate to the same text. */
  lemma NameSlotDecides(a: RepoInfo, b: RepoInfo)
    requires DescriptionText(a) == DescriptionText(b) && LanguageText(a) == LanguageText(b)
    ensures Render(a) == Render(b) <==> NameText(a) == NameText(b)
  {
    FillSlotsDecide(NameText(a), NameText(b), DescriptionText(a), DescriptionText(b),
      LanguageText(a), LanguageText(b), Outline);
  }

  /** `null`, absent and empty descriptions all render the placeholder, so
      they give the same prompt; so do the three kinds of missing language. */
  lemma FalsyFieldsRenderAlike(a: RepoInfo, b: RepoInfo)
    requires a.name == b.name
    requires !Truthy(a.description) && !Truthy(b.description)
    requires !Truthy(a.language) && !Truthy(b.language)
    ensures Render(a) == Render(b)
    ensures DescriptionText(a) == NoDescription && LanguageText(a) == NoLanguage
  {
  }
}
