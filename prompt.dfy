/**
 * The instruction text sent to the generation service (app.py lines
 * 105-151): a fixed Danish template with four sections in a fixed order
 * (résumé, job description, details, instructions) into which the
 * submitted fields are interpolated verbatim, without escaping.
 */
module Prompt {
  import opened Text
  import opened Validation

  // The template, in the pieces between its interpolated fields. The
  // indentation is part of the text the service receives.

  const Indent := "                "
  const ItemIndent := "                    "

  const Preamble := "\n" + Indent + "Opgave: Skriv et udkast til en professionel ansøgning på dansk.\n\n"
    + Indent + "Baser ansøgningen på følgende information:\n\n" + Indent
  const FenceOpen := "\n" + ItemIndent + "```\n" + ItemIndent
  const FenceClose := "\n" + ItemIndent + "```\n\n" + Indent

  const CvHeading := "1.  **Ansøgers CV/Erfaring:**"
  const JobHeading := "2.  **Jobbeskrivelse for den søgte stilling:**"
  const DetailsHeading := "3.  **Detaljer:**"
  const InstructionsHeading := "**Instruktioner for ansøgningens struktur og indhold:**"

  const NameBullet := "\n" + ItemIndent + "*   Ansøgers Navn: "
  const CompanyBullet := "\n" + ItemIndent + "*   Virksomhed: "
  const RoleBullet := "\n" + ItemIndent + "*   Stilling: "
  const ManagerBullet := "\n" + ItemIndent + "*   Ansættende Leder: "
  const ReferralBullet := "\n" + ItemIndent + "*   Hvor stillingen blev fundet: "
  const SectionBreak := "\n\n" + Indent

  const Language := "\n\n" + Indent + "*   **Sprog:** Dansk. Tonen skal være professionel, entusiastisk og skræddersyet til stillingen.\n"
    + Indent + "*   **Afsender:** Brug "
  const RecipientIntro := " som afsender.\n" + Indent + "*   **Modtager:** Hvis en ansættende leder ("
  const RecipientRule := ") er angivet og ikke er \"Ukendt\", adresser brevet til vedkommende (f.eks. \"Kære [Managers Navn]\"). "
    + "Ellers brug en generel hilsen som \"Vedrørende stillingen som "
  const Paragraph1 := "\" eller adresser til HR-afdelingen, hvis det virker passende.\n"
    + Indent + "*   **Alinea 1 (Introduktion):**\n"
    + ItemIndent + "*   Præsenter dig selv ("
  const StateRole := ").\n" + ItemIndent + "*   Angiv klart den stilling ("
  const MentionReferral := "), du søger.\n" + ItemIndent + "*   Nævn, hvor du så stillingsopslaget ("
  const Paragraph2 := "), hvis angivet.\n"
    + ItemIndent + "*   Giv en kort opsummering af din mest relevante profil/kernekompetence i forhold til stillingen, baseret på CV'et.\n"
    + Indent + "*   **Alinea 2 (Motivation og Match):**\n"
    + ItemIndent + "*   Uddyb, hvorfor du er en god kandidat.\n"
    + ItemIndent + "*   TRÆK DIREKTE PARALLELLER mellem specifikke erfaringer/kvalifikationer fra CV'et ("
  const MatchJob := ") og de krav/ønsker, der er nævnt i jobbeskrivelsen ("
  const Motivation := "). Vær konkret.\n" + ItemIndent + "*   Vis din motivation for netop denne stilling og virksomhed ("
  const Paragraph3 := ").\n"
    + Indent + "*   **Alinea 3 (Afslutning):**\n"
    + ItemIndent + "*   Gentag din interesse for stillingen og virksomheden.\n"
    + ItemIndent + "*   Opsummer kort, hvad du kan tilbyde.\n"
    + ItemIndent + "*   Udtryk ønske om en samtale for at uddybe din ansøgning.\n"
    + ItemIndent + "*   Tak for modtagerens tid og overvejelse.\n"
    + Indent + "*   **Afsluttende Hilsen:** Brug en passende professionel hilsen (f.eks. \"Med venlig hilsen\") efterfulgt af dit navn ("
  const Closing := ").\n"
    + Indent + "*   **Kontaktinformation:** Inkludér *ikke* detaljeret kontaktinformation (som adresse, email, telefon) direkte i brødteksten, "
    + "da dette typisk står i CV'et eller brevhovedet. Fokuser på selve ansøgningsteksten. Sørg dog for at brevet afsluttes med afsenderens navn.\n"
    + Indent + "*   **Formatering:** Sørg for passende linjeskift og luft mellem afsnittene for god læsbarhed.\n\n"
    + Indent + "Generer nu ansøgningsteksten baseret på ovenstående.\n" + Indent

  /**
   * The template's fixed text, piece by piece. Keeping it a value lets the
   * facts below be proved for any text in these places; `Danish` is the
   * text the application uses.
   */
  datatype Template = Template(
    preamble: string, cvHeading: string, fenceOpen: string, fenceClose: string,
    jobHeading: string, detailsHeading: string,
    nameBullet: string, companyBullet: string, roleBullet: string,
    managerBullet: string, referralBullet: string, sectionBreak: string,
    instructionsHeading: string, language: string, recipientIntro: string, recipientRule: string,
    paragraph1: string, stateRole: string, mentionReferral: string, paragraph2: string,
    matchJob: string, motivation: string, paragraph3: string, closing: string)

  const Danish := Template(
    Preamble, CvHeading, FenceOpen, FenceClose,
    JobHeading, DetailsHeading,
    NameBullet, CompanyBullet, RoleBullet,
    ManagerBullet, ReferralBullet, SectionBreak,
    InstructionsHeading, Language, RecipientIntro, RecipientRule,
    Paragraph1, StateRole, MentionReferral, Paragraph2,
    MatchJob, Motivation, Paragraph3, Closing)

  /** The four section headings are not empty, so the sections start at distinct places. */
  predicate Headed(t: Template)
  {
    t.cvHeading != "" && t.jobHeading != "" && t.detailsHeading != "" && t.instructionsHeading != ""
  }

  lemma DanishHeaded()
    ensures Headed(Danish) && Danish.preamble != ""
  {
  }

  // Positions in the segment list below. Section headings:
  const CvHeadingAt := 1
  const JobHeadingAt := 5
  const DetailsHeadingAt := 9
  const InstructionsHeadingAt := 21
  // The fields each section shows:
  const ResumeAt := 3
  const JobDescriptionAt := 7
  const NameAt := 11
  const CompanyAt := 13
  const RoleAt := 15
  const ManagerAt := 17
  const ReferralAt := 19
  // The instructions quote the manager and the referral as submitted:
  const RawManagerAt := 25
  const RawReferralAt := 33
  const SegmentCount := 43

  /**
   * The template's pieces and the interpolated fields, in the order they
   * appear. Blank manager and referral fields are shown as their sentinels
   * in the details section, but quoted as submitted in the recipient rule
   * and the referral mention.
   */
  function Segments(t: Template, s: Submission): (segments: seq<string>)
    ensures |segments| == SegmentCount
  {
    [ t.preamble, t.cvHeading, t.fenceOpen, s.resumeText, t.fenceClose,
      t.jobHeading, t.fenceOpen, s.jobDescription, t.fenceClose,
      t.detailsHeading, t.nameBullet, s.name, t.companyBullet, s.company, t.roleBullet, s.role,
      t.managerBullet, DefaultManager(s.manager), t.referralBullet, DefaultReferral(s.referral), t.sectionBreak,
      t.instructionsHeading, t.language, s.name, t.recipientIntro, s.manager, t.recipientRule, s.role,
      t.paragraph1, s.name, t.stateRole, s.role, t.mentionReferral, s.referral, t.paragraph2, s.resumeText,
      t.matchJob, s.jobDescription, t.motivation, s.company, t.paragraph3, s.name, t.closing ]
  }

  /** The template filled in with a submission. */
  function Fill(t: Template, s: Submission): string
  {
    Concat(Segments(t, s))
  }

  /** The prompt the application sends: a function of the submission alone. */
  function Render(s: Submission): string
  {
    Fill(Danish, s)
  }

  /** Where segment `k` starts in the filled-in template. */
  function Start(t: Template, s: Submission, k: nat): nat
    requires k < SegmentCount
  {
    |Concat(Segments(t, s)[..k])|
  }

  /** Every segment occurs verbatim where it starts, and the next one starts right after it. */
  lemma SegmentVerbatim(t: Template, s: Submission, k: nat, x: string)
    requires k < SegmentCount && Segments(t, s)[k] == x
    ensures OccursAt(Fill(t, s), x, Start(t, s, k))
    ensures k + 1 < SegmentCount ==> Start(t, s, k + 1) == Start(t, s, k) + |x|
  {
    ConcatAt(Segments(t, s), k);
  }

  /** Segments appear in list order: an earlier one ends before a later one starts. */
  lemma SegmentsInOrder(t: Template, s: Submission, j: nat, x: string, k: nat)
    requires j < k < SegmentCount && Segments(t, s)[j] == x
    ensures Start(t, s, j) + |x| <= Start(t, s, k)
  {
    ConcatBefore(Segments(t, s), j, k);
  }

  /** The section headings occur in the order résumé, job description, details, instructions. */
  lemma SectionOrder(t: Template, s: Submission)
    requires Headed(t)
    ensures OccursAt(Fill(t, s), t.cvHeading, Start(t, s, CvHeadingAt))
    ensures OccursAt(Fill(t, s), t.jobHeading, Start(t, s, JobHeadingAt))
    ensures OccursAt(Fill(t, s), t.detailsHeading, Start(t, s, DetailsHeadingAt))
    ensures OccursAt(Fill(t, s), t.instructionsHeading, Start(t, s, InstructionsHeadingAt))
    ensures Start(t, s, CvHeadingAt) < Start(t, s, JobHeadingAt) < Start(t, s, DetailsHeadingAt) < Start(t, s, InstructionsHeadingAt)
  {
    assert Segments(t, s)[CvHeadingAt] == t.cvHeading;
    assert Segments(t, s)[JobHeadingAt] == t.jobHeading;
    assert Segments(t, s)[DetailsHeadingAt] == t.detailsHeading;
    assert Segments(t, s)[InstructionsHeadingAt] == t.instructionsHeading;
    SegmentVerbatim(t, s, CvHeadingAt, t.cvHeading);
    SegmentVerbatim(t, s, JobHeadingAt, t.jobHeading);
    SegmentVerbatim(t, s, DetailsHeadingAt, t.detailsHeading);
    SegmentVerbatim(t, s, InstructionsHeadingAt, t.instructionsHeading);
    SegmentsInOrder(t, s, CvHeadingAt, t.cvHeading, JobHeadingAt);
    SegmentsInOrder(t, s, JobHeadingAt, t.jobHeading, DetailsHeadingAt);
    SegmentsInOrder(t, s, DetailsHeadingAt, t.detailsHeading, InstructionsHeadingAt);
  }

  /** The résumé text and the job description occur verbatim, each inside its own section. */
  lemma DocumentsVerbatim(t: Template, s: Submission)
    requires Headed(t)
    ensures OccursAt(Fill(t, s), s.resumeText, Start(t, s, ResumeAt))
    ensures Start(t, s, CvHeadingAt) < Start(t, s, ResumeAt)
    ensures Start(t, s, ResumeAt) + |s.resumeText| <= Start(t, s, JobHeadingAt)
    ensures OccursAt(Fill(t, s), s.jobDescription, Start(t, s, JobDescriptionAt))
    ensures Start(t, s, JobHeadingAt) < Start(t, s, JobDescriptionAt)
    ensures Start(t, s, JobDescriptionAt) + |s.jobDescription| <= Start(t, s, DetailsHeadingAt)
  {
    assert Segments(t, s)[ResumeAt] == s.resumeText;
    assert Segments(t, s)[CvHeadingAt] == t.cvHeading;
    assert Segments(t, s)[JobDescriptionAt] == s.jobDescription;
    assert Segments(t, s)[JobHeadingAt] == t.jobHeading;
    SegmentVerbatim(t, s, ResumeAt, s.resumeText);
    SegmentsInOrder(t, s, CvHeadingAt, t.cvHeading, ResumeAt);
    SegmentsInOrder(t, s, ResumeAt, s.resumeText, JobHeadingAt);
    SegmentVerbatim(t, s, JobDescriptionAt, s.jobDescription);
    SegmentsInOrder(t, s, JobHeadingAt, t.jobHeading, JobDescriptionAt);
    SegmentsInOrder(t, s, JobDescriptionAt, s.jobDescription, DetailsHeadingAt);
  }

  /**
   * The details section shows name, company, role, manager and referral
   * verbatim and in that order, blank optional fields as their sentinels,
   * all before the instructions.
   */
  lemma DetailsVerbatim(t: Template, s: Submission)
    requires Headed(t)
    ensures OccursAt(Fill(t, s), s.name, Start(t, s, NameAt))
    ensures OccursAt(Fill(t, s), s.company, Start(t, s, CompanyAt))
    ensures OccursAt(Fill(t, s), s.role, Start(t, s, RoleAt))
    ensures OccursAt(Fill(t, s), DefaultManager(s.manager), Start(t, s, ManagerAt))
    ensures OccursAt(Fill(t, s), DefaultReferral(s.referral), Start(t, s, ReferralAt))
    ensures Start(t, s, DetailsHeadingAt) < Start(t, s, NameAt)
    ensures Start(t, s, NameAt) + |s.name| <= Start(t, s, CompanyAt)
    ensures Start(t, s, CompanyAt) + |s.company| <= Start(t, s, RoleAt)
    ensures Start(t, s, RoleAt) + |s.role| <= Start(t, s, ManagerAt)
    ensures Start(t, s, ManagerAt) + |DefaultManager(s.manager)| <= Start(t, s, ReferralAt)
    ensures Start(t, s, ReferralAt) + |DefaultReferral(s.referral)| <= Start(t, s, InstructionsHeadingAt)
  {
    assert Segments(t, s)[DetailsHeadingAt] == t.detailsHeading;
    assert Segments(t, s)[NameAt] == s.name;
    assert Segments(t, s)[CompanyAt] == s.company;
    assert Segments(t, s)[RoleAt] == s.role;
    assert Segments(t, s)[ManagerAt] == DefaultManager(s.manager);
    assert Segments(t, s)[ReferralAt] == DefaultReferral(s.referral);
    SegmentsInOrder(t, s, DetailsHeadingAt, t.detailsHeading, NameAt);
    SegmentVerbatim(t, s, NameAt, s.name);
    SegmentsInOrder(t, s, NameAt, s.name, CompanyAt);
    SegmentVerbatim(t, s, CompanyAt, s.company);
    SegmentsInOrder(t, s, CompanyAt, s.company, RoleAt);
    SegmentVerbatim(t, s, RoleAt, s.role);
    SegmentsInOrder(t, s, RoleAt, s.role, ManagerAt);
    SegmentVerbatim(t, s, ManagerAt, DefaultManager(s.manager));
    SegmentsInOrder(t, s, ManagerAt, DefaultManager(s.manager), ReferralAt);
    SegmentVerbatim(t, s, ReferralAt, DefaultReferral(s.referral));
    SegmentsInOrder(t, s, ReferralAt, DefaultReferral(s.referral), InstructionsHeadingAt);
  }

  /**
   * The recipient rule quotes the manager as submitted, right between its
   * two template pieces; in the application's text these end in "leder ("
   * and start with ") er angivet", so a blank manager leaves
   * "leder () er angivet" in the prompt while the details say "Ukendt".
   */
  lemma RawManagerQuoted(t: Template, s: Submission)
    requires Headed(t)
    ensures OccursAt(Fill(t, s), t.recipientIntro, Start(t, s, RawManagerAt - 1))
    ensures OccursAt(Fill(t, s), s.manager, Start(t, s, RawManagerAt))
    ensures OccursAt(Fill(t, s), t.recipientRule, Start(t, s, RawManagerAt + 1))
    ensures Start(t, s, RawManagerAt) == Start(t, s, RawManagerAt - 1) + |t.recipientIntro|
    ensures Start(t, s, RawManagerAt + 1) == Start(t, s, RawManagerAt) + |s.manager|
    ensures Start(t, s, InstructionsHeadingAt) < Start(t, s, RawManagerAt - 1)
  {
    assert Segments(t, s)[RawManagerAt - 1] == t.recipientIntro;
    assert Segments(t, s)[RawManagerAt] == s.manager;
    assert Segments(t, s)[RawManagerAt + 1] == t.recipientRule;
    assert Segments(t, s)[InstructionsHeadingAt] == t.instructionsHeading;
    SegmentVerbatim(t, s, RawManagerAt - 1, t.recipientIntro);
    SegmentVerbatim(t, s, RawManagerAt, s.manager);
    SegmentVerbatim(t, s, RawManagerAt + 1, t.recipientRule);
    SegmentsInOrder(t, s, InstructionsHeadingAt, t.instructionsHeading, RawManagerAt - 1);
  }

  /**
   * The first paragraph's instructions quote the referral as submitted,
   * right between "…stillingsopslaget (" and "), hvis angivet…", after the
   * manager.
   */
  lemma RawReferralQuoted(t: Template, s: Submission)
    ensures OccursAt(Fill(t, s), t.mentionReferral, Start(t, s, RawReferralAt - 1))
    ensures OccursAt(Fill(t, s), s.referral, Start(t, s, RawReferralAt))
    ensures OccursAt(Fill(t, s), t.paragraph2, Start(t, s, RawReferralAt + 1))
    ensures Start(t, s, RawReferralAt) == Start(t, s, RawReferralAt - 1) + |t.mentionReferral|
    ensures Start(t, s, RawReferralAt + 1) == Start(t, s, RawReferralAt) + |s.referral|
    ensures Start(t, s, RawManagerAt) + |s.manager| <= Start(t, s, RawReferralAt - 1)
  {
    assert Segments(t, s)[RawReferralAt - 1] == t.mentionReferral;
    assert Segments(t, s)[RawReferralAt] == s.referral;
    assert Segments(t, s)[RawReferralAt + 1] == t.paragraph2;
    assert Segments(t, s)[RawManagerAt] == s.manager;
    SegmentVerbatim(t, s, RawReferralAt - 1, t.mentionReferral);
    SegmentVerbatim(t, s, RawReferralAt, s.referral);
    SegmentVerbatim(t, s, RawReferralAt + 1, t.paragraph2);
    SegmentsInOrder(t, s, RawManagerAt, s.manager, RawReferralAt - 1);
  }

  /**
   * The application's prompt shows everything submitted: the résumé and the
   * job description, the details (blank optional fields as their
   * sentinels, and the manager and referral also as submitted), with the
   * sections in the order résumé, job description, details, instructions.
   */
  lemma RenderShowsSubmission(s: Submission)
    ensures Contains(Render(s), s.resumeText) && Contains(Render(s), s.jobDescription)
    ensures Contains(Render(s), s.name) && Contains(Render(s), s.company) && Contains(Render(s), s.role)
    ensures Contains(Render(s), DefaultManager(s.manager)) && Contains(Render(s), DefaultReferral(s.referral))
    ensures Contains(Render(s), s.manager) && Contains(Render(s), s.referral)
    ensures Start(Danish, s, CvHeadingAt) < Start(Danish, s, JobHeadingAt) < Start(Danish, s, DetailsHeadingAt) < Start(Danish, s, InstructionsHeadingAt)
  {
    DanishHeaded();
    SectionOrder(Danish, s);
    DocumentsVerbatim(Danish, s);
    DetailsVerbatim(Danish, s);
    RawManagerQuoted(Danish, s);
    RawReferralQuoted(Danish, s);
  }
}
