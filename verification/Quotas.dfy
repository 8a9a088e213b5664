/** Consuming and releasing usage, told by the names of the features, their counters and their limits. */
module Quotas {
  import opened Common
  import opened Registry
  import opened Ordering
  import opened Usage

  /**
   Requests that pass: messages of the chat, or uploads and bytes of the file manager; something, nothing
   negative.
   */
  lemma RequestsByName(feature: string, request: map<string, int>)
    ensures ValidRequest(feature, request) <==>
              && request != map[] && (forall c :: c in request ==> request[c] >= 0)
              && ((feature == "chat" && request.Keys <= {"messages"})
                  || (feature == "file_manager" && request.Keys <= {"uploads", "bytes"}))
  {
    CountersByName();
    assert feature in FEATURES && CounterNames(FEATURES[feature]) != {} ==> feature in {"chat", "file_manager"};
  }

  lemma CountersByName()
    ensures forall k :: k in FEATURES && k != "chat" && k != "file_manager" ==> CounterNames(FEATURES[k]) == {}
    ensures "chat" in FEATURES && CounterNames(FEATURES["chat"]) == {"messages"}
    ensures "file_manager" in FEATURES && CounterNames(FEATURES["file_manager"]) == {"uploads", "bytes"}
  {
    assert FEATURES["chat"].limits == {"max_messages_month"};
    assert FEATURES["file_manager"].limits == {"max_uploads", "max_bytes"};
    assert LIMIT_COUNTERS["max_messages_month"] == "messages";
    assert LIMIT_COUNTERS["max_uploads"] == "uploads" && LIMIT_COUNTERS["max_bytes"] == "bytes";
    forall k | k in FEATURES && k != "chat" && k != "file_manager"
      ensures FEATURES[k].limits <= {"max_clients"}
    {
    }
  }

  /** Asking for n more than used is too much for the limit of that name. */
  predicate IsTooMuch(limits: map<string, Option<int>>, limit: string, used: int, n: int) {
    limit in limits && limits[limit].Some? && used + n > limits[limit].value
  }

  /** Where the counters are kept. */
  const UPLOADS := Path("file_manager", "uploads")
  const BYTES := Path("file_manager", "bytes")

  function Messages(month: string): Path {
    Path("chat", "messages_" + month)
  }

  lemma LimitsByName()
    ensures forall l :: l in LIMIT_COUNTERS ==>
              && (LIMIT_COUNTERS[l] == "messages" <==> l == "max_messages_month")
              && (LIMIT_COUNTERS[l] == "bytes" <==> l == "max_bytes")
              && (LIMIT_COUNTERS[l] == "uploads" <==> l == "max_uploads")
    ensures COUNTER_LIMITS == map["uploads" := "max_uploads", "bytes" := "max_bytes",
                                  "messages" := "max_messages_month"]
  {
  }

  /** Over its bound is too much for the limit of that name. */
  lemma OverIsTooMuch(doc: Doc, feature: string, month: string, deltas: map<string, int>,
                      limits: map<string, Option<int>>,
                      c: string)
    requires c in deltas && c in COUNTER_LIMITS
    ensures Over(doc, feature, month, deltas, Bounds(limits, deltas.Keys), c)
            <==> IsTooMuch(limits, COUNTER_LIMITS[c], At(doc, Slot(feature, c, month)), deltas[c])
  {
  }

  /**
   Messages: counted in their month's counter, or refused under max_messages_month with what was used and
   the maximum. Nothing else moves.
   */
  lemma MessagesByName(was: Doc, now: Doc, month: string, deltas: map<string, int>, limits: map<string, Option<int>>,
                       res: Outcome)
    requires deltas.Keys == {"messages"}
             && ConsumeMeans(was, now, "chat", month, deltas, Bounds(limits, deltas.Keys), res)
    ensures var n, used := deltas["messages"], At(was, Messages(month));
            if IsTooMuch(limits, "max_messages_month", used, n)
            then res == QuotaExceeded("max_messages_month", used, limits["max_messages_month"].value)
                 && forall p :: At(now, p) == At(was, p)
            else res == Consumed(map["messages" := used + n])
                 && forall p :: At(now, p) == At(was, p) + if p == Messages(month) then n else 0
  {
    LimitsByName();
    assert Slot("chat", "messages", month) == Messages(month);
    OverIsTooMuch(was, "chat", month, deltas, limits, "messages");
    if !IsTooMuch(limits, "max_messages_month", At(was, Messages(month)), deltas["messages"]) {
      OneMoved(was, now, "chat", month, deltas, "messages", res);
    }
  }

  lemma OneMoved(was: Doc, now: Doc, feature: string, month: string, deltas: map<string, int>, c: string, res: Outcome)
    requires deltas.Keys == {c} && AllMoved(was, now, feature, month, deltas, res)
    ensures var p := Slot(feature, c, month);
            && res == Consumed(map[c := At(was, p) + deltas[c]])
            && forall q :: At(now, q) == At(was, q) + if q == p then deltas[c] else 0
  {
    assert Slots(feature, deltas.Keys, month) == {Slot(feature, c, month)};
  }

  lemma TwoMoved(was: Doc, now: Doc, feature: string, month: string, deltas: map<string, int>, c: string, d: string,
                 res: Outcome)
    requires deltas.Keys == {c, d} && Slot(feature, c, month) != Slot(feature, d, month)
    requires AllMoved(was, now, feature, month, deltas, res)
    ensures var p, q := Slot(feature, c, month), Slot(feature, d, month);
            && res == Consumed(map[c := At(was, p) + deltas[c], d := At(was, q) + deltas[d]])
            && forall s :: At(now, s) == At(was, s) + if s == p then deltas[c] else if s == q then deltas[d] else 0
  {
    var p, q := Slot(feature, c, month), Slot(feature, d, month);
    assert Slots(feature, deltas.Keys, month) == {p, q};
    forall s | s != p && s != q
      ensures At(now, s) == At(was, s)
    {
      assert s !in Slots(feature, deltas.Keys, month);
    }
    assert At(now, p) == At(was, p) + deltas[c] && At(now, q) == At(was, q) + deltas[d];
  }

  /** Files: bytes and uploads are counted together or not at all; when both are too much, the bytes are named. */
  lemma FilesByName(was: Doc, now: Doc, month: string, deltas: map<string, int>, limits: map<string, Option<int>>,
                    res: Outcome)
    requires deltas.Keys == {"bytes", "uploads"}
    requires ConsumeMeans(was, now, "file_manager", month, deltas, Bounds(limits, deltas.Keys), res)
    ensures var n, m, bytes, uploads := deltas["bytes"], deltas["uploads"], At(was, BYTES), At(was, UPLOADS);
            if IsTooMuch(limits, "max_bytes", bytes, n)
            then res == QuotaExceeded("max_bytes", bytes, limits["max_bytes"].value)
                 && forall p :: At(now, p) == At(was, p)
            else if IsTooMuch(limits, "max_uploads", uploads, m)
            then res == QuotaExceeded("max_uploads", uploads, limits["max_uploads"].value)
                 && forall p :: At(now, p) == At(was, p)
            else res == Consumed(map["bytes" := bytes + n, "uploads" := uploads + m])
                 && forall p :: At(now, p) == At(was, p) + if p == BYTES then n else if p == UPLOADS then m else 0
  {
    LimitsByName();
    assert Slot("file_manager", "bytes", month) == BYTES && Slot("file_manager", "uploads", month) == UPLOADS;
    OverIsTooMuch(was, "file_manager", month, deltas, limits, "bytes");
    OverIsTooMuch(was, "file_manager", month, deltas, limits, "uploads");
    FilesTold(was, now, month, deltas, Bounds(limits, deltas.Keys), res);
  }

  lemma FilesTold(was: Doc, now: Doc, month: string, deltas: map<string, int>, maxes: map<string, int>, res: Outcome)
    requires deltas.Keys == {"bytes", "uploads"} && maxes.Keys <= deltas.Keys
    requires ConsumeMeans(was, now, "file_manager", month, deltas, maxes, res)
    requires Slot("file_manager", "bytes", month) == BYTES && Slot("file_manager", "uploads", month) == UPLOADS
    ensures if Over(was, "file_manager", month, deltas, maxes, "bytes")
            then res == QuotaExceeded("max_bytes", At(was, BYTES), maxes["bytes"])
                 && forall p :: At(now, p) == At(was, p)
            else if Over(was, "file_manager", month, deltas, maxes, "uploads")
            then res == QuotaExceeded("max_uploads", At(was, UPLOADS), maxes["uploads"])
                 && forall p :: At(now, p) == At(was, p)
            else AllMoved(was, now, "file_manager", month, deltas, res)
                 && res == Consumed(map["bytes" := At(was, BYTES) + deltas["bytes"],
                                        "uploads" := At(was, UPLOADS) + deltas["uploads"]])
                 && forall p :: At(now, p) == At(was, p) + if p == BYTES then deltas["bytes"]
                                                           else if p == UPLOADS then deltas["uploads"] else 0
  {
    if NoneOver(was, "file_manager", month, deltas, maxes) {
      TwoMoved(was, now, "file_manager", month, deltas, "bytes", "uploads", res);
    } else {
      LimitsByName();
      DenialOfFiles(was, "file_manager", month, deltas, maxes, LIMIT_COUNTERS[res.limit], res.used);
    }
  }

  /**
   Of two counters a denial names the first that is over, with its use; and when, read again, neither is over
   any more, the first that has a bound, with nothing used.
   */
  lemma DenialOfFiles(doc: Doc, feature: string, month: string, deltas: map<string, int>, maxes: map<string, int>,
                      c: string, used: int)
    requires maxes != map[] && maxes.Keys <= {"bytes", "uploads"}
    requires IsNamed(doc, feature, month, deltas, maxes, c, used)
    ensures if Over(doc, feature, month, deltas, maxes, "bytes")
            then c == "bytes" && used == At(doc, Slot(feature, "bytes", month))
            else if Over(doc, feature, month, deltas, maxes, "uploads")
            then c == "uploads" && used == At(doc, Slot(feature, "uploads", month))
            else c == (if "bytes" in maxes then "bytes" else "uploads") && used == 0
  {
    assert Less("bytes", "uploads");
  }
}
