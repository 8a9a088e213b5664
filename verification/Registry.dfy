/** The feature registry: which roles a feature applies to, its limits, its parent and its usage counters. */
module Registry {
  import opened Common

  /** Features, limits and counters are named by their keys. */
  datatype FeatureDef = FeatureDef(appliesTo: set<string>, defaultEnabled: bool, limits: set<string>,
                                   parent: Option<string>)

  const COACH := "coach"
  const CLIENT := "client"
  const BOTH: set<string> := {COACH, CLIENT}

  function Top(limits: set<string>): FeatureDef {
    FeatureDef(BOTH, true, limits, None)
  }

  function Child(parent: string): FeatureDef {
    FeatureDef(BOTH, true, {}, Some(parent))
  }

  const FEATURES: map<string, FeatureDef> := map[
      "workouts" := Top({}),
      "nutrition" := Top({}),
      "chat" := Top({"max_messages_month"}),
      "invitations" := FeatureDef({COACH}, true, {"max_clients"}, None),
      "file_manager" := Top({"max_uploads", "max_bytes"}),
      "ai_assistant" := Top({}),
      "exercises" := Child("workouts"),
      "workout_templates" := Child("workouts"),
      "programs" := Child("workouts"),
      "tasks" := Child("workouts"),
      "recipes" := Child("nutrition"),
      "ingredients" := Child("nutrition"),
      "meal_plans" := Child("nutrition"),
      "recipe_books" := Child("nutrition"),
      "meal_programs" := Child("nutrition")]

  /**
   What resolution relies on: a parent is a registered top-level feature that applies to the same roles as
   its child, and every role a feature applies to is an entitlement role.
   */
  predicate WellFormed(features: map<string, FeatureDef>) {
    forall k :: k in features ==>
      && features[k].appliesTo <= BOTH
      && (features[k].parent.Some? ==>
            features[k].parent.value in features && features[features[k].parent.value].parent.None?
            && features[k].appliesTo == features[features[k].parent.value].appliesTo)
  }

  lemma RegistryIsWellFormed()
    ensures WellFormed(FEATURES)
  {
    assert "workouts" in FEATURES && FEATURES["workouts"] == Top({});
    assert "nutrition" in FEATURES && FEATURES["nutrition"] == Top({});
    forall k | k in FEATURES
      ensures FEATURES[k].parent.Some? ==> FEATURES[k] == Child("workouts") || FEATURES[k] == Child("nutrition")
      ensures FEATURES[k].appliesTo <= BOTH
    {
    }
  }

  /** The registry by name: everything is on by default, and for coaches and clients alike but for the invitations. */
  lemma FeaturesByName(k: string)
    ensures var work := {"exercises", "workout_templates", "programs", "tasks"};
            var food := {"recipes", "ingredients", "meal_plans", "recipe_books", "meal_programs"};
            && (k in FEATURES <==> k in work || k in food || k in {"workouts", "nutrition", "chat", "invitations",
                                                                   "file_manager", "ai_assistant"})
            && (k in FEATURES ==>
                  && FEATURES[k].defaultEnabled
                  && FEATURES[k].appliesTo == (if k == "invitations" then {"coach"} else {"coach", "client"})
                  && FEATURES[k].parent == (if k in work then Some("workouts") else if k in food then Some("nutrition")
                                            else None)
                  && FEATURES[k].limits == if k == "chat" then {"max_messages_month"}
                                           else if k == "invitations" then {"max_clients"}
                                           else if k == "file_manager" then {"max_uploads", "max_bytes"} else {})
  {
  }

  // ---- usage counters ----

  const LIMIT_COUNTERS: map<string, string> :=
    map["max_uploads" := "uploads", "max_bytes" := "bytes", "max_messages_month" := "messages"]
  const COUNTER_LIMITS: map<string, string> :=
    map["uploads" := "max_uploads", "bytes" := "max_bytes", "messages" := "max_messages_month"]
  const MONTHLY: set<string> := {"messages"}

  lemma CounterTablesAreInverse()
    ensures forall l :: l in LIMIT_COUNTERS ==>
              LIMIT_COUNTERS[l] in COUNTER_LIMITS && COUNTER_LIMITS[LIMIT_COUNTERS[l]] == l
    ensures forall c :: c in COUNTER_LIMITS ==>
              COUNTER_LIMITS[c] in LIMIT_COUNTERS && LIMIT_COUNTERS[COUNTER_LIMITS[c]] == c
  {
  }

  function CounterNames(def: FeatureDef): set<string> {
    set l | l in def.limits && l in LIMIT_COUNTERS :: LIMIT_COUNTERS[l]
  }

  /** The storage key of a counter; month is the UTC month written as six digits. */
  function CounterKey(counter: string, month: string): string {
    if counter in MONTHLY then counter + "_" + month else counter
  }

  /** Messages are counted by the month, uploads and bytes for good. */
  lemma OnlyMessagesRestart(m: string, n: string)
    ensures CounterKey("messages", m) == CounterKey("messages", n) <==> m == n
    ensures CounterKey("uploads", m) == "uploads" && CounterKey("bytes", m) == "bytes"
  {
    assert CounterKey("messages", m)[9..] == m && CounterKey("messages", n)[9..] == n;
  }

  /** Within one month, no two counters share a storage key; a monthly counter's key names its month. */
  lemma CounterKeysAreDistinct(c: string, d: string, m: string, n: string)
    requires c in COUNTER_LIMITS && d in COUNTER_LIMITS
    ensures CounterKey(c, m) == CounterKey(d, n) <==> c == d && (c in MONTHLY ==> m == n)
  {
    assert forall x :: x in COUNTER_LIMITS ==> x == "uploads" || x == "bytes" || x == "messages";
    assert "messages_"[0] == 'm' && |"messages"| == 8;
    if c == "messages" {
      assert CounterKey(c, m)[0] == 'm' && CounterKey(c, m)[9..] == m;
    }
    if d == "messages" {
      assert CounterKey(d, n)[0] == 'm' && CounterKey(d, n)[9..] == n;
    }
  }
}
