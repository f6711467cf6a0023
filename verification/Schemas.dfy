/** The edges of the schemas in shared/models.py: of each bounded field, the last values that
    validate and the first that do not. */
module Schemas {
  import opened Models

  lemma RequestEdges(r: BidRequest)
    requires r.Valid()
    ensures r.(fico := 300).Valid() && r.(fico := 850).Valid() && !r.(fico := 299).Valid() && !r.(fico := 851).Valid()
    ensures r.(loan := 1).Valid() && !r.(loan := 0).Valid()
    ensures r.(term := 12).Valid() && r.(term := 84).Valid() && !r.(term := 11).Valid() && !r.(term := 85).Valid()
    ensures r.(state := "TX").Valid() && !r.(state := "T").Valid() && !r.(state := "TXS").Valid()
    ensures r.(reserveBps := -500).Valid() && r.(reserveBps := 500).Valid()
    ensures !r.(reserveBps := -501).Valid() && !r.(reserveBps := 501).Valid()
  {
  }

  /** What a decision may be: it may offer nothing at all. */
  lemma DecisionEdges(d: Decision)
    requires d.Valid()
    ensures d.(aprBps := 0).Valid() && d.(aprBps := 10_000).Valid()
    ensures !d.(aprBps := -1).Valid() && !d.(aprBps := 10_001).Valid()
    ensures d.(term := 12).Valid() && d.(term := 120).Valid() && !d.(term := 11).Valid() && !d.(term := 121).Valid()
    ensures d.(maxAmount := 0.0).Valid() && !d.(maxAmount := -0.000001).Valid()
    ensures d.(maxLtvBps := 0).Valid() && d.(maxLtvBps := 20_000).Valid()
    ensures !d.(maxLtvBps := -1).Valid() && !d.(maxLtvBps := 20_001).Valid()
    ensures d.(cashDown := 0.0).Valid() && !d.(cashDown := -0.000001).Valid()
    ensures d.(reserveBps := -500).Valid() && d.(reserveBps := 500).Valid()
    ensures !d.(reserveBps := -501).Valid() && !d.(reserveBps := 501).Valid()
    ensures d.(confidence := 0.0).Valid() && d.(confidence := 1.0).Valid()
    ensures !d.(confidence := -0.000001).Valid() && !d.(confidence := 1.000001).Valid()
  {
  }

  /** Some request and some decision do validate. */
  lemma SchemasAreInhabited()
    ensures BidRequest(0, "dealer", 700, 25_000_000_000, New, 60, "TX", 0, 0, RequestOpen).Valid()
    ensures Decision(Approve, 549, 60, 25_000_000_000.0, 10_000, 0.0, 100, [], 0.9, "fits the sheet").Valid()
  {
  }

  /** A bid must offer something, and is otherwise bounded as the decision it is made of. */
  lemma BidEdges(body: BidCreate)
    ensures body.Valid() <==> body.package.Valid() && body.package.maxAmount != 0.0
  {
  }
}
