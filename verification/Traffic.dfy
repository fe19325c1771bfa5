/** How a request gets its traffic class. */
module Traffic {
  import opened Text
  import opened Policy
  import A = Admission

  const BACKGROUND_KEYWORDS := ["batch", "index", "indexing", "analytics", "offline", "background", "cleanup",
                                "reindex"]

  /** A priority the code knows decides alone; without one, high risk is critical and some tasks are background. */
  method Classify(priority: string, taskType: string, risk: RiskLevel) returns (c: A.Class)
    ensures var p := ToLower(Trim(priority));
            && (c == A.Critical <==> p == "critical" || (p != "background" && p != "normal" && risk == High))
            && (c == A.Background <==>
                  || p == "background"
                  || (p != "critical" && p != "normal" && risk != High && Mentions(taskType, BACKGROUND_KEYWORDS)))
            && !c.Unregistered?
  {
    var p := ToLower(Trim(priority));
    if p == "critical" { return A.Critical; }
    if p == "background" { return A.Background; }
    if p == "normal" { return A.Normal; }
    if risk == High {
      return A.Critical;
    }
    var found := FindKeyword(taskType, BACKGROUND_KEYWORDS);
    return if found then A.Background else A.Normal;
  }

  lemma OccursWithin(word: string, part: string, i: nat, text: string)
    requires i + |part| <= |word| && word[i..i + |part|] == part && Occurs(word, text)
    ensures Occurs(part, text)
  {
    var j :| 0 <= j <= |text| && word <= text[j..];
    assert part <= text[i + j..];
  }

  lemma IndexCovers(text: string)
    ensures Occurs("indexing", text) || Occurs("reindex", text) ==> Occurs("index", text)
  {
    if Occurs("indexing", text) {
      assert "indexing"[0..5] == "index";
      OccursWithin("indexing", "index", 0, text);
    } else if Occurs("reindex", text) {
      assert "reindex"[2..7] == "index";
      OccursWithin("reindex", "index", 2, text);
    }
  }

  lemma AreKeywords()
    ensures forall k :: k in BACKGROUND_KEYWORDS
              <==> k in {"batch", "index", "indexing", "analytics", "offline", "background", "cleanup", "reindex"}
  {
    var k := BACKGROUND_KEYWORDS;
    assert k[0] == "batch" && k[1] == "index" && k[2] == "indexing" && k[3] == "analytics";
    assert k[4] == "offline" && k[5] == "background" && k[6] == "cleanup" && k[7] == "reindex";
  }

  lemma MentionsAny(text: string)
    ensures (exists k :: k in BACKGROUND_KEYWORDS && Occurs(k, text))
            <==> || Occurs("batch", text) || Occurs("index", text) || Occurs("indexing", text)
                 || Occurs("analytics", text) || Occurs("offline", text) || Occurs("background", text)
                 || Occurs("cleanup", text) || Occurs("reindex", text)
  {
    AreKeywords();
  }

  /**
   A text names background work exactly if it contains one of six words; the other two keywords
   contain one of them.
   */
  lemma BackgroundWork(text: string)
    ensures (exists k :: k in BACKGROUND_KEYWORDS && Occurs(k, text))
            <==> || Occurs("batch", text) || Occurs("index", text) || Occurs("analytics", text)
                 || Occurs("offline", text) || Occurs("background", text) || Occurs("cleanup", text)
  {
    IndexCovers(text);
    MentionsAny(text);
  }
}
