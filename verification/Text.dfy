/** Laws of the text normalisation, and the edges of the status graphs. */
module Text {
  import opened Domain
  import opened Protocol

  // ---------- trimming ----------

  predicate AllSpace(s: string) {
    forall i :: 0 <= i < |s| ==> IsSpace(s[i])
  }

  /** Some character is not white space. */
  predicate Present(s: string) {
    exists i :: 0 <= i < |s| && !IsSpace(s[i])
  }

  predicate IsTrimmed(s: string) {
    s == [] || (!IsSpace(s[0]) && !IsSpace(s[|s| - 1]))
  }

  /** White space is code points 9 to 13, the space, the next line and the no-break space. */
  lemma SpacesAreLatin1(c: char)
    ensures IsSpace(c) <==> 9 <= c as int <= 13 || c as int == 32 || c as int == 0x85 || c as int == 0xA0
  {
  }

  lemma {:induction false} TrimLeftSplits(s: string) returns (left: string)
    ensures s == left + TrimLeft(s) && AllSpace(left) && (TrimLeft(s) == [] || !IsSpace(TrimLeft(s)[0]))
  {
    if s != [] && IsSpace(s[0]) {
      var rest := TrimLeftSplits(s[1..]);
      left := [s[0]] + rest;
      assert s == [s[0]] + s[1..];
    } else {
      left := [];
    }
  }

  lemma {:induction false} TrimRightSplits(s: string) returns (right: string)
    ensures s == TrimRight(s) + right && AllSpace(right)
    ensures TrimRight(s) == [] || !IsSpace(TrimRight(s)[|TrimRight(s)| - 1])
  {
    if s != [] && IsSpace(s[|s| - 1]) {
      var rest := TrimRightSplits(s[..|s| - 1]);
      right := rest + [s[|s| - 1]];
      assert s == s[..|s| - 1] + [s[|s| - 1]];
    } else {
      right := [];
    }
  }

  /** Trimming takes white space off both ends and leaves none there. */
  lemma TrimSplits(s: string) returns (left: string, right: string)
    ensures s == left + Trim(s) + right && AllSpace(left) && AllSpace(right) && IsTrimmed(Trim(s))
  {
    left := TrimLeftSplits(s);
    right := TrimRightSplits(TrimLeft(s));
    assert Trim(s) != [] ==> Trim(s)[0] == TrimLeft(s)[0];
  }

  lemma {:induction false} TrimLeftDrops(left: string, s: string)
    requires AllSpace(left) && (s == [] || !IsSpace(s[0]))
    ensures TrimLeft(left + s) == s
  {
    if left == [] {
      assert left + s == s;
    } else {
      TrimLeftDrops(left[1..], s);
      assert (left + s)[1..] == left[1..] + s;
    }
  }

  lemma {:induction false} TrimRightDrops(s: string, right: string)
    requires AllSpace(right) && (s == [] || !IsSpace(s[|s| - 1]))
    ensures TrimRight(s + right) == s
  {
    if right == [] {
      assert s + right == s;
    } else {
      var last := |right| - 1;
      TrimRightDrops(s, right[..last]);
      assert (s + right)[..|s| + last] == s + right[..last];
    }
  }

  /** Only one text is left when white space is taken off both ends: the trimmed one. */
  lemma TrimIsUnique(left: string, s: string, right: string)
    requires AllSpace(left) && AllSpace(right) && IsTrimmed(s)
    ensures Trim(left + s + right) == s
  {
    if s == [] {
      assert AllSpace(left + right) && left + s + right == (left + right) + [];
      TrimLeftDrops(left + right, []);
    } else {
      assert left + s + right == left + (s + right);
      TrimLeftDrops(left, s + right);
      TrimRightDrops(s, right);
    }
  }

  lemma TrimmedStays(s: string)
    requires IsTrimmed(s)
    ensures Trim(s) == s
  {
    TrimIsUnique([], s, []);
    assert [] + s + [] == s;
  }

  lemma TrimTwice(s: string)
    ensures Trim(Trim(s)) == Trim(s) && |Trim(s)| <= |s|
  {
    var left, right := TrimSplits(s);
    TrimmedStays(Trim(s));
  }

  /** A text is blank exactly if it has nothing but white space. */
  lemma BlankIffNotPresent(s: string)
    ensures Blank(s) <==> !Present(s)
    ensures Present(Trim(s)) <==> Present(s)
  {
    var left, right := TrimSplits(s);
    if Trim(s) != [] {
      assert s[|left|] == Trim(s)[0];
    } else {
      assert s == left + right;
    }
  }

  // ---------- capitals ----------

  const LOWER := "abcdefghijklmnopqrstuvwxyz"
  const UPPER := "ABCDEFGHIJKLMNOPQRSTUVWXYZ"

  /** Each small letter becomes the capital in its place, and nothing else changes. */
  lemma CapitalsInPlace()
    ensures forall i :: 0 <= i < 26 ==> UpperChar(LOWER[i]) == UPPER[i]
    ensures forall c :: c !in LOWER ==> UpperChar(c) == c
  {
    forall c | 'a' <= c <= 'z' ensures c in LOWER {
      assert LOWER[c as int - 'a' as int] == c;
    }
  }

  lemma CapitalsKeepSpace(c: char)
    ensures IsSpace(UpperChar(c)) <==> IsSpace(c)
  {
  }

  /** Capitals leave length and white space where they are. */
  lemma CapitalsKeepShape(s: string)
    ensures |ToUpper(s)| == |s| && (Present(ToUpper(s)) <==> Present(s)) && (IsTrimmed(s) ==> IsTrimmed(ToUpper(s)))
  {
    forall i | 0 <= i < |s| ensures IsSpace(ToUpper(s)[i]) <==> IsSpace(s[i]) {
      CapitalsKeepSpace(s[i]);
    }
  }

  // ---------- stored fields ----------

  /** What is stored of the fields a client sent: texts trimmed, the related code in capitals, the
      risk level, the metric's value and the time as they are. */
  predicate StoredFrom(stored: Fields, input: Fields) {
    && stored.name == Trim(input.name) && stored.description == Trim(input.description)
    && stored.facility == Trim(input.facility) && stored.owner == Trim(input.owner)
    && stored.category == Trim(input.category) && stored.riskLevel == input.riskLevel
    && stored.metricValue == input.metricValue && stored.metricUnit == Trim(input.metricUnit)
    && stored.effectiveAt == input.effectiveAt && stored.evidence == Trim(input.evidence)
    && stored.relatedCode == ToUpper(Trim(input.relatedCode))
  }

  lemma NormalizeStores(f: Fields)
    ensures StoredFrom(Normalize(f), f)
  {
  }

  /** The texts a record cannot do without. */
  predicate Complete(agg: Aggregate, code: string, f: Fields) {
    && Present(code) && Present(f.name) && Present(f.facility) && Present(f.owner)
    && (agg == PriorityDecision ==> Present(f.evidence) && Present(f.relatedCode))
  }

  /** The services accept fields exactly if every needed text is more than white space. */
  lemma ValidIffComplete(agg: Aggregate, code: string, f: Fields)
    ensures ValidFields(agg, code, f) <==> Complete(agg, code, f)
  {
    BlankIffNotPresent(code);
    BlankIffNotPresent(f.name);
    BlankIffNotPresent(f.facility);
    BlankIffNotPresent(f.owner);
    BlankIffNotPresent(f.evidence);
    BlankIffNotPresent(f.relatedCode);
  }

  /** Storing fields loses no needed text. */
  lemma StoringKeepsComplete(agg: Aggregate, code: string, stored: Fields, input: Fields)
    requires StoredFrom(stored, input)
    ensures Complete(agg, code, stored) <==> Complete(agg, code, input)
  {
    BlankIffNotPresent(input.name);
    BlankIffNotPresent(input.facility);
    BlankIffNotPresent(input.owner);
    BlankIffNotPresent(input.evidence);
    BlankIffNotPresent(input.relatedCode);
    CapitalsKeepShape(Trim(input.relatedCode));
  }

  lemma StoredCodeIsPresent(code: string)
    ensures Present(ToUpper(Trim(code))) <==> Present(code)
  {
    BlankIffNotPresent(code);
    CapitalsKeepShape(Trim(code));
  }

  /** Fields that are stored a second time stay as they are. */
  lemma StoringTwice(stored: Fields, input: Fields, again: Fields)
    requires StoredFrom(stored, input) && StoredFrom(again, stored)
    ensures again == stored
  {
    TrimTwice(input.name);
    TrimTwice(input.description);
    TrimTwice(input.facility);
    TrimTwice(input.owner);
    TrimTwice(input.category);
    TrimTwice(input.metricUnit);
    TrimTwice(input.evidence);
    CapitalsTwice(input.relatedCode);
  }

  lemma CapitalsTwice(s: string)
    ensures ToUpper(Trim(ToUpper(Trim(s)))) == ToUpper(Trim(s))
  {
    var left, right := TrimSplits(s);
    CapitalsKeepShape(Trim(s));
    TrimmedStays(ToUpper(Trim(s)));
  }

  // ---------- status graphs ----------

  /** The edges of each status graph. */
  function Edges(agg: Aggregate): set<(string, string)> {
    match agg
    case BridgeAsset =>
      {("active", "restricted"), ("active", "closed"), ("restricted", "closed"), ("restricted", "retired"),
       ("restricted", "active"), ("closed", "retired"), ("closed", "restricted"), ("retired", "closed")}
    case InspectionRound =>
      {("planned", "running"), ("planned", "review"), ("running", "review"), ("running", "completed"),
       ("running", "planned"), ("review", "completed"), ("review", "running"), ("completed", "review")}
    case DefectFinding =>
      {("new", "verified"), ("new", "monitoring"), ("verified", "monitoring"), ("verified", "mitigated"),
       ("verified", "new"), ("monitoring", "mitigated"), ("monitoring", "closed"), ("monitoring", "verified"),
       ("mitigated", "closed"), ("mitigated", "monitoring"), ("closed", "mitigated")}
    case PriorityDecision =>
      {("draft", "observe"), ("draft", "restrict"), ("draft", "urgent")}
  }

  lemma BridgeEdges(from: string, to: string)
    ensures CanTransition(BRIDGE_TRANSITIONS, from, to) <==> (from, to) in Edges(BridgeAsset)
  {
    assert "active"[0] == 'a' && "restricted"[0] == 'r' && "closed"[0] == 'c' && "retired"[0] == 'r';
    assert "restricted"[2] == 's' && "retired"[2] == 't';
  }

  lemma InspectionEdges(from: string, to: string)
    ensures CanTransition(INSPECTION_TRANSITIONS, from, to) <==> (from, to) in Edges(InspectionRound)
  {
    assert "planned"[0] == 'p' && "running"[0] == 'r' && "review"[0] == 'r' && "completed"[0] == 'c';
    assert "running"[1] == 'u' && "review"[1] == 'e';
  }

  lemma DefectEdges(from: string, to: string)
    ensures CanTransition(DEFECT_TRANSITIONS, from, to) <==> (from, to) in Edges(DefectFinding)
  {
    assert "new"[0] == 'n' && "verified"[0] == 'v' && "monitoring"[0] == 'm' && "mitigated"[0] == 'm';
    assert "closed"[0] == 'c' && "monitoring"[1] == 'o' && "mitigated"[1] == 'i';
  }

  /** The server follows exactly these edges. */
  lemma TransitionsAreEdges(agg: Aggregate, from: string, to: string)
    ensures CanTransition(Transitions(agg), from, to) <==> (from, to) in Edges(agg)
  {
    hide CanTransition;
    match agg
    case BridgeAsset => BridgeEdges(from, to);
    case InspectionRound => InspectionEdges(from, to);
    case DefectFinding => DefectEdges(from, to);
    case PriorityDecision => DecisionEdges(from, to);
  }
}
