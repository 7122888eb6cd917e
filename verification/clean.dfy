/**
 * Cleaning of the bound table: stage suffixes, the float artefact in the tax
 * id, and the blocklist of lead sources.
 */
module Clean {
  import opened Seqs
  import opened Text
  import opened Wrappers
  import opened Leads

  /** The sales-pipeline suffix as the first cleaning regex spells it: with a space inside the parenthesis. */
  const VendasSuffix: string := " ( Pipeline de Vendas)"
  /** The two spellings the second cleaning regex (`Disparos?`) accepts, plural tried first. */
  const DisparosSuffix: string := " (Pipeline de Disparos)"
  const DisparoSuffix: string := " (Pipeline de Disparo)"
  /** The suffix as the export actually writes it; the first regex does not match it. */
  const PlainVendasSuffix: string := " (Pipeline de Vendas)"

  const StageSuffixes: seq<string> := [VendasSuffix, DisparosSuffix, DisparoSuffix, PlainVendasSuffix]

  /** What a float-typed tax id leaves behind when rendered as text. */
  const FloatArtefact: string := ".0"

  /** Sources whose leads are dropped from the working table. */
  const Blocklist: set<string> := {"HYPERFLOW", "META - Whatsapp", "TALLOS"}

  function StripVendas(s: string): string {
    RemoveAll(s, [VendasSuffix])
  }

  function StripDisparo(s: string): string {
    RemoveAll(s, [DisparosSuffix, DisparoSuffix])
  }

  /**
   * The stage as the dashboard shows it: both suffix removals, then upper-case.
   * No lower-case letter survives, hence no suffix survives either.
   */
  function NormaliseStage(s: string): (r: string)
    ensures NoLower(r)
    ensures !Occurs(r, StageSuffixes)
  {
    var r := Upper(StripDisparo(StripVendas(s)));
    SuffixesHaveLower();
    NoLowerNoOccurrence(r, StageSuffixes);
    r
  }

  lemma SuffixesHaveLower()
    ensures forall p :: p in StageSuffixes ==> HasLower(p)
  {
    assert IsLower(VendasSuffix[4]) && IsLower(DisparosSuffix[3]);
    assert IsLower(DisparoSuffix[3]) && IsLower(PlainVendasSuffix[3]);
  }

  /** Normalising a stage twice is the same as normalising it once. */
  lemma NormaliseStageIdempotent(s: string)
    ensures NormaliseStage(NormaliseStage(s)) == NormaliseStage(s)
  {
    var r := NormaliseStage(s);
    SuffixesHaveLower();
    NoLowerNoOccurrence(r, [VendasSuffix]);
    RemoveAllNoOccurrence(r, [VendasSuffix]);
    NoLowerNoOccurrence(r, [DisparosSuffix, DisparoSuffix]);
    RemoveAllNoOccurrence(r, [DisparosSuffix, DisparoSuffix]);
    UpperOfUpper(r);
  }

  predicate NoParen(t: string) {
    forall k :: 0 <= k < |t| ==> t[k] != '('
  }

  /** Each suffix text is left alone by a removal step whose pattern it does not start with. */
  lemma SuffixSurvives(w: string, pats: seq<string>)
    requires NonEmpty(pats)
    requires forall p :: p in pats ==> |p| >= 2 && p[1] == '('
    requires |w| >= 2 && w[1] == '('
    requires forall k :: 2 <= k < |w| ==> w[k] != '('
    requires FirstMatch(w, pats).None?
    ensures RemoveAll(w, pats) == w
  {
    AnchoredNoOccurrence(w, '(', pats);
    RemoveAllNoOccurrence(w, pats);
  }

  /** A stage label followed by a suffix: removal acts on the suffix alone. */
  lemma StripAfterLabel(t: string, w: string, pats: seq<string>)
    requires NonEmpty(pats) && NoParen(t)
    requires forall p :: p in pats ==> |p| >= 2 && p[1] == '('
    requires |w| > 0 && w[0] != '('
    ensures RemoveAll(t + w, pats) == t + RemoveAll(w, pats)
  {
    AnchoredNoMatch(t, w, '(', pats);
    RemoveAllConcat(t, w, pats);
  }

  lemma LabelUnchanged(t: string, pats: seq<string>)
    requires NonEmpty(pats) && NoParen(t)
    requires forall p :: p in pats ==> |p| >= 2 && p[1] == '('
    ensures RemoveAll(t, pats) == t
  {
    AnchoredNoOccurrence(t, '(', pats);
    RemoveAllNoOccurrence(t, pats);
  }

  lemma VendasSuffixRemoved()
    ensures StripVendas(VendasSuffix) == ""
  {
    assert RemoveAll(VendasSuffix, [VendasSuffix]) == RemoveAll(VendasSuffix[|VendasSuffix|..], [VendasSuffix]);
  }

  lemma DisparosSurvivesVendas()
    ensures StripVendas(DisparosSuffix) == DisparosSuffix
  {
    assert VendasSuffix[2] != DisparosSuffix[2];
    SuffixSurvives(DisparosSuffix, [VendasSuffix]);
  }

  lemma DisparoSurvivesVendas()
    ensures StripVendas(DisparoSuffix) == DisparoSuffix
  {
    assert VendasSuffix[2] != DisparoSuffix[2];
    SuffixSurvives(DisparoSuffix, [VendasSuffix]);
  }

  lemma DisparosRemoved()
    ensures StripDisparo(DisparosSuffix) == ""
  {
    var d := [DisparosSuffix, DisparoSuffix];
    assert RemoveAll(DisparosSuffix, d) == RemoveAll(DisparosSuffix[|DisparosSuffix|..], d);
  }

  lemma DisparoRemoved()
    ensures StripDisparo(DisparoSuffix) == ""
  {
    var d := [DisparosSuffix, DisparoSuffix];
    assert FirstMatch(DisparoSuffix, d) == Some(DisparoSuffix);
    assert RemoveAll(DisparoSuffix, d) == RemoveAll(DisparoSuffix[|DisparoSuffix|..], d);
  }

  lemma PlainVendasSurvivesVendas()
    ensures StripVendas(PlainVendasSuffix) == PlainVendasSuffix
  {
    assert VendasSuffix[2] != PlainVendasSuffix[2];
    SuffixSurvives(PlainVendasSuffix, [VendasSuffix]);
  }

  lemma PlainVendasSurvivesDisparo()
    ensures StripDisparo(PlainVendasSuffix) == PlainVendasSuffix
  {
    assert DisparosSuffix[14] != PlainVendasSuffix[14] && DisparoSuffix[14] != PlainVendasSuffix[14];
    SuffixSurvives(PlainVendasSuffix, [DisparosSuffix, DisparoSuffix]);
  }

  lemma PlainVendasUpper()
    ensures Upper(PlainVendasSuffix) == " (PIPELINE DE VENDAS)"
  {
  }

  /** Upper-casing works character by character, so it distributes over concatenation. */
  lemma UpperConcat(a: string, b: string)
    ensures Upper(a + b) == Upper(a) + Upper(b)
  {
  }

  lemma StripVendasAfterLabel(t: string, w: string)
    requires NoParen(t) && |w| > 0 && w[0] == ' '
    ensures StripVendas(t + w) == t + StripVendas(w)
  {
    StripAfterLabel(t, w, [VendasSuffix]);
  }

  lemma StripDisparoAfterLabel(t: string, w: string)
    requires NoParen(t) && |w| > 0 && w[0] == ' '
    ensures StripDisparo(t + w) == t + StripDisparo(w)
  {
    StripAfterLabel(t, w, [DisparosSuffix, DisparoSuffix]);
  }

  lemma StripDisparoLabel(t: string)
    requires NoParen(t)
    ensures StripDisparo(t) == t
  {
    LabelUnchanged(t, [DisparosSuffix, DisparoSuffix]);
  }

  /** A label without parentheses followed by the suffix the first regex spells out: the label alone, upper-cased. */
  lemma NormaliseStageStripsVendas(t: string)
    requires NoParen(t)
    ensures NormaliseStage(t + VendasSuffix) == Upper(t)
  {
    StripVendasAfterLabel(t, VendasSuffix);
    VendasSuffixRemoved();
    assert t + "" == t;
    StripDisparoLabel(t);
  }

  /** The same for the plural Disparos suffix of the second regex. */
  lemma NormaliseStageStripsDisparos(t: string)
    requires NoParen(t)
    ensures NormaliseStage(t + DisparosSuffix) == Upper(t)
  {
    StripVendasAfterLabel(t, DisparosSuffix);
    DisparosSurvivesVendas();
    StripDisparoAfterLabel(t, DisparosSuffix);
    DisparosRemoved();
    assert t + "" == t;
  }

  /** The same for the singular Disparo suffix of the second regex. */
  lemma NormaliseStageStripsDisparo(t: string)
    requires NoParen(t)
    ensures NormaliseStage(t + DisparoSuffix) == Upper(t)
  {
    StripVendasAfterLabel(t, DisparoSuffix);
    DisparoSurvivesVendas();
    StripDisparoAfterLabel(t, DisparoSuffix);
    DisparoRemoved();
    assert t + "" == t;
  }

  /**
   * The suffix spelled without the inner space escapes the first regex and is
   * upper-cased together with the label.
   */
  lemma NormaliseStageKeepsPlainVendas(t: string)
    requires NoParen(t)
    ensures NormaliseStage(t + PlainVendasSuffix) == Upper(t) + " (PIPELINE DE VENDAS)"
  {
    StripVendasAfterLabel(t, PlainVendasSuffix);
    PlainVendasSurvivesVendas();
    StripDisparoAfterLabel(t, PlainVendasSuffix);
    PlainVendasSurvivesDisparo();
    UpperConcat(t, PlainVendasSuffix);
    PlainVendasUpper();
  }

  lemma NoParenEtapa1()
    ensures NoParen("ETAPA1") && Upper("ETAPA1") == "ETAPA1"
  {
  }

  lemma Etapa1Texts()
    ensures "ETAPA1 (Pipeline de Vendas)" == "ETAPA1" + PlainVendasSuffix
    ensures "ETAPA1 (PIPELINE DE VENDAS)" == "ETAPA1" + " (PIPELINE DE VENDAS)"
  {
  }

  lemma NormaliseStageExamplePlainVendas()
    ensures NormaliseStage("ETAPA1 (Pipeline de Vendas)") == "ETAPA1 (PIPELINE DE VENDAS)"
  {
    NoParenEtapa1();
    Etapa1Texts();
    NormaliseStageKeepsPlainVendas("ETAPA1");
  }

  lemma NormaliseStageExampleDisparos()
    ensures NormaliseStage("ETAPA1 (Pipeline de Disparos)") == "ETAPA1"
  {
    NoParenEtapa1();
    assert "ETAPA1 (Pipeline de Disparos)" == "ETAPA1" + DisparosSuffix;
    NormaliseStageStripsDisparos("ETAPA1");
  }

  /**
   * Removes every ".0", scanning left to right and never rescanning, not just
   * a trailing one. The tax id is left unchanged exactly when it holds no ".0".
   */
  function CleanCpf(s: string): (r: string)
    ensures IsSubseq(r, s)
    ensures r == s <==> !Occurs(s, [FloatArtefact])
  {
    RemoveAllFixpoint(s, [FloatArtefact]);
    RemoveAll(s, [FloatArtefact])
  }

  /** A digit string rendered as a float gets its digits back. */
  lemma CleanCpfFloatText(t: string)
    requires forall k :: 0 <= k < |t| ==> t[k] != '.'
    ensures CleanCpf(t + FloatArtefact) == t
  {
    var pats := [FloatArtefact];
    forall j | 0 <= j < |t|
      ensures !MatchAt(t + FloatArtefact, j, pats)
    {
      assert (t + FloatArtefact)[j..][0] == t[j];
    }
    RemoveAllConcat(t, FloatArtefact, pats);
    assert RemoveAll(FloatArtefact, pats) == RemoveAll(FloatArtefact[2..], pats);
    assert t + "" == t;
  }

  /** Removal can join two halves into a new ".0", so cleaning is not idempotent. */
  lemma CleanCpfNotIdempotent()
    ensures CleanCpf("..00") == ".0"
    ensures CleanCpf(CleanCpf("..00")) == ""
  {
  }

  function CleanLead(l: Lead): Lead {
    l.(etapa := NormaliseStage(l.etapa), cpf := CleanCpf(l.cpf))
  }

  function CleanAll(leads: seq<Lead>): (r: seq<Lead>)
    ensures |r| == |leads|
  {
    seq(|leads|, i requires 0 <= i < |leads| => CleanLead(leads[i]))
  }

  predicate Blocked(l: Lead) {
    l.origem in Blocklist
  }

  /** Drops the rows of blocklisted sources; every other row stays, unchanged and in order. */
  function DropBlocked(leads: seq<Lead>): (r: seq<Lead>)
    ensures forall l :: l in r ==> !Blocked(l)
    ensures forall l :: multiset(r)[l] == if Blocked(l) then 0 else multiset(leads)[l]
    ensures IsSubseq(r, leads)
  {
    Filter(leads, (l: Lead) => !Blocked(l))
  }

  lemma DropBlockedIdempotent(leads: seq<Lead>)
    ensures DropBlocked(DropBlocked(leads)) == DropBlocked(leads)
  {
    FilterKeepsAll(DropBlocked(leads), (l: Lead) => !Blocked(l));
  }

  /** The state of the table after cleaning: what every later stage may rely on. */
  predicate Normalised(base: seq<Lead>) {
    forall l :: l in base ==> !Blocked(l) && NoLower(l.etapa) && !Occurs(l.etapa, StageSuffixes)
  }

  /** Cleans stages and tax ids of every row, then drops the blocklisted sources. */
  function Normalise(leads: seq<Lead>): (r: seq<Lead>)
    ensures Normalised(r)
    ensures IsSubseq(r, CleanAll(leads))
    ensures forall l :: multiset(r)[l] == if Blocked(l) then 0 else multiset(CleanAll(leads))[l]
    ensures forall i :: 0 <= i < |leads| && !Blocked(leads[i]) ==> CleanLead(leads[i]) in r
  {
    var cleaned := CleanAll(leads);
    var r := DropBlocked(cleaned);
    forall i | 0 <= i < |leads| && !Blocked(leads[i])
      ensures CleanLead(leads[i]) in r
    {
      assert cleaned[i] in cleaned;
      assert multiset(r)[cleaned[i]] > 0;
    }
    forall l | l in r
      ensures NoLower(l.etapa) && !Occurs(l.etapa, StageSuffixes)
    {
      assert multiset(cleaned)[l] > 0;
    }
    r
  }

  /** Cleaning a lead twice is not cleaning it once: the tax id can shrink again. */
  lemma CleanLeadNotIdempotent(l: Lead)
    requires l.cpf == "..00"
    ensures CleanLead(l).cpf == ".0"
    ensures CleanLead(CleanLead(l)) != CleanLead(l)
  {
    CleanCpfNotIdempotent();
  }
}
