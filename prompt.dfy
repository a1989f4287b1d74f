/** The fixed prompt template of the /feedback handler: an f-string that embeds
    the job role, the sanitised resume and the sanitised job description. */
module Prompt {
  import Text

  /** The template text before the job role (the f-string opens with a newline):
      one sentence of persona and one of instruction, ending where the role goes. */
  const Opening: string := Persona + Instruction + RoleIntro
  const Persona: string := "\nYou are a career coach AI assistant. "
  const Instruction: string := "Review the following resume text and provide detailed feedback "
  const RoleIntro: string := "tailored for the job role: "

  /** Between the job role and the resume. */
  const ResumeLabel: string := ".\n\nResume: "

  /** Between the resume and the job description. */
  const DescriptionLabel: string := "\n\nJob Description: "

  /** The five analysis categories that close the prompt. */
  const Categories: seq<string> := [
    "Missing skills relevant to the role",
    "Suggestions to improve formatting, clarity, and tone",
    "Highlight vague or redundant language",
    "Recommendations to tailor experience & achievements",
    "Provide section-wise feedback (Education, Experience, Skills, etc.)"
  ]

  /** `- item` lines, each ending in a newline. */
  function Bullets(items: seq<string>): string {
    if items == [] then [] else "- " + items[0] + "\n" + Bullets(items[1..])
  }

  /** The line that introduces the categories. */
  const Header: string := "\n\nAnalyze for:\n"

  /** The fixed parts of a prompt template, around its three fields. */
  datatype Template = Template(opening: string, resumeLabel: string, descriptionLabel: string, closing: string)

  /** The template of the /feedback handler. */
  function Feedback(): Template {
    Template(Opening, ResumeLabel, DescriptionLabel, Header + Bullets(Categories))
  }

  /** Where the resume starts in a prompt for a role of length `roleLength`. */
  function ResumeAt(t: Template, roleLength: nat): nat {
    |t.opening| + roleLength + |t.resumeLabel|
  }

  /** Where the job description starts. */
  function DescriptionAt(t: Template, roleLength: nat, resumeLength: nat): nat {
    ResumeAt(t, roleLength) + resumeLength + |t.descriptionLabel|
  }

  /** The f-string filled in: the role, the resume and the job description
      appear verbatim, in that order and without overlapping, between the fixed
      parts of the template. */
  function Fill(t: Template, role: string, resume: string, description: string): (p: string)
    ensures Text.OccursAt(t.opening, p, 0)
    ensures Text.OccursAt(role, p, |t.opening|)
    ensures Text.OccursAt(t.resumeLabel, p, |t.opening| + |role|)
    ensures Text.OccursAt(resume, p, ResumeAt(t, |role|))
    ensures Text.OccursAt(t.descriptionLabel, p, ResumeAt(t, |role|) + |resume|)
    ensures Text.OccursAt(description, p, DescriptionAt(t, |role|, |resume|))
    ensures |p| == DescriptionAt(t, |role|, |resume|) + |description| + |t.closing|
    ensures Text.OccursAt(t.closing, p, |p| - |t.closing|)
  {
    var p := t.opening + role + t.resumeLabel + resume + t.descriptionLabel + description + t.closing;
    Layout(t.opening, role, t.resumeLabel, resume, t.descriptionLabel, description, t.closing);
    p
  }

  /** Every prompt the handler sends ends by asking for each of the five
      categories, on a bullet line of its own. */
  lemma FeedbackListsCategories(role: string, resume: string, description: string, i: nat)
    requires i < |Categories|
    ensures var t := Feedback();
      var p := Fill(t, role, resume, description);
      Text.OccursAt("- " + Categories[i] + "\n", p, |p| - |t.closing| + |Header| + |Bullets(Categories[..i])|)
  {
    var t := Feedback();
    FillListsBullets(t, Header, Categories, role, resume, description, i);
  }

  /** A template whose closing is a header and a bullet list puts bullet `i` at
      the matching offset of the closing, at the end of the filled text. */
  lemma FillListsBullets(t: Template, header: string, items: seq<string>,
                         role: string, resume: string, description: string, i: nat)
    requires t.closing == header + Bullets(items) && i < |items|
    ensures var p := Fill(t, role, resume, description);
      Text.OccursAt("- " + items[i] + "\n", p, |p| - |t.closing| + |header| + |Bullets(items[..i])|)
  {
    var p := Fill(t, role, resume, description);
    HeadedBulletAt(header, items, i);
    OccursWithin("- " + items[i] + "\n", t.closing, p,
                 |header| + |Bullets(items[..i])|, |p| - |t.closing|);
  }

  /** An occurrence inside an occurrence. */
  lemma OccursWithin(a: string, b: string, c: string, i: nat, j: nat)
    requires Text.OccursAt(a, b, i) && Text.OccursAt(b, c, j)
    ensures Text.OccursAt(a, c, j + i)
  {
    var s := c[j..j + |b|];
    forall k | 0 <= k < |a| ensures c[j + i + k] == a[k] {
      assert c[j + i + k] == s[i + k] == b[i + k] == b[i..i + |a|][k];
    }
    assert c[j + i..j + i + |a|] == a;
  }

  /** Where each of seven concatenated pieces sits. */
  lemma Layout(a: string, b: string, c: string, d: string, e: string, f: string, g: string)
    ensures var p := a + b + c + d + e + f + g;
      && Text.OccursAt(a, p, 0)
      && Text.OccursAt(b, p, |a|)
      && Text.OccursAt(c, p, |a| + |b|)
      && Text.OccursAt(d, p, |a| + |b| + |c|)
      && Text.OccursAt(e, p, |a| + |b| + |c| + |d|)
      && Text.OccursAt(f, p, |a| + |b| + |c| + |d| + |e|)
      && Text.OccursAt(g, p, |a| + |b| + |c| + |d| + |e| + |f|)
  {
    var p := a + b + c + d + e + f + g;
    var k := 0;
    assert p[k..k + |a|] == a;
    k := k + |a|;
    assert p[k..k + |b|] == b;
    k := k + |b|;
    assert p[k..k + |c|] == c;
    k := k + |c|;
    assert p[k..k + |d|] == d;
    k := k + |d|;
    assert p[k..k + |e|] == e;
    k := k + |e|;
    assert p[k..k + |f|] == f;
    k := k + |f|;
    assert p[k..k + |g|] == g;
  }

  /** Two prompts filled from the same template with roles of equal length and
      resumes of equal length are equal only when all three fields are equal. */
  lemma FillInjective(t: Template, role: string, resume: string, description: string,
                      role': string, resume': string, description': string)
    requires |role| == |role'| && |resume| == |resume'|
    requires Fill(t, role, resume, description) == Fill(t, role', resume', description')
    ensures role == role' && resume == resume' && description == description'
  {
    var p := Fill(t, role, resume, description);
    assert role == p[|t.opening|..|t.opening| + |role|];
    assert resume == p[ResumeAt(t, |role|)..ResumeAt(t, |role|) + |resume|];
    var d := DescriptionAt(t, |role|, |resume|);
    assert description == p[d..d + |description|];
    assert |description| == |description'|;
  }

  /** Each of the five categories is requested, on a bullet line of its own. */
  lemma ClosingListsCategories(i: nat)
    requires i < |Categories|
    ensures Text.OccursAt("- " + Categories[i] + "\n", Feedback().closing, |Header| + |Bullets(Categories[..i])|)
  {
    HeadedBulletAt(Header, Categories, i);
  }

  lemma HeadedBulletAt(header: string, items: seq<string>, i: nat)
    requires i < |items|
    ensures Text.OccursAt("- " + items[i] + "\n", header + Bullets(items), |header| + |Bullets(items[..i])|)
  {
    BulletAt(items, i);
    var b := Bullets(items);
    var at := |Bullets(items[..i])|;
    var line := "- " + items[i] + "\n";
    assert (header + b)[|header| + at..|header| + at + |line|] == b[at..at + |line|];
  }

  /** Item `i` of a bullet list sits after the bullets of the items before it. */
  lemma {:induction false} BulletAt(items: seq<string>, i: nat)
    requires i < |items|
    ensures Text.OccursAt("- " + items[i] + "\n", Bullets(items), |Bullets(items[..i])|)
  {
    var line := "- " + items[0] + "\n";
    var rest := Bullets(items[1..]);
    assert Bullets(items) == line + rest;
    if i > 0 {
      BulletAt(items[1..], i - 1);
      assert items[1..][i - 1] == items[i];
      assert items[..i] == [items[0]] + items[1..][..i - 1];
      assert Bullets(items[..i]) == line + Bullets(items[1..][..i - 1]);
      var at := |Bullets(items[1..][..i - 1])|;
      var l := "- " + items[i] + "\n";
      assert (line + rest)[|line| + at..|line| + at + |l|] == rest[at..at + |l|];
    } else {
      assert items[..0] == [];
    }
  }
}
