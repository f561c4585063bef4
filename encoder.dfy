/**
  The feature encoder of the risk dashboard: it turns the patient form (labels chosen
  from drop-down lists and numbers from sliders) into the 13-element feature vector the
  trained classifier was fitted on.
 */
module FeatureEncoder {

  /** The classifier's feature order. */
  const Schema: seq<string> :=
    ["age", "sex", "cp", "trestbps", "chol", "fbs", "restecg",
     "thalach", "exang", "oldpeak", "slope", "ca", "thal"]

  const FeatureCount: nat := 13

  // Positions of the features in the vector.
  const Age: nat := 0
  const Sex: nat := 1
  const ChestPain: nat := 2
  const RestingBp: nat := 3
  const Cholesterol: nat := 4
  const FastingSugar: nat := 5
  const RestingEcg: nat := 6
  const MaxHeartRate: nat := 7
  const ExerciseAngina: nat := 8
  const StDepression: nat := 9
  const StSlope: nat := 10
  const Vessels: nat := 11
  const Thal: nat := 12

  /** One patient as entered on the form. Sliders and the age box give whole numbers;
      the ST depression slider gives a decimal. */
  datatype PatientInput = PatientInput(
    age: int,
    sex: string,
    chestPain: string,
    bloodPressure: int,
    cholesterol: int,
    heartRate: int,
    glucose: int,
    restingEcg: string,
    exerciseAngina: string,
    stDepression: real,
    stSlope: string,
    vessels: int,
    stressTest: string)

  const ChestPainCodes: map<string, real> :=
    map["Typical Angina" := 1.0, "Atypical Angina" := 2.0,
        "Non-anginal Pain" := 3.0, "Asymptomatic" := 4.0]
  const ChestPainDefault: real := 4.0

  const EcgCodes: map<string, real> :=
    map["Normal" := 0.0, "ST-T abnormality" := 1.0, "LV hypertrophy" := 2.0]
  const EcgDefault: real := 0.0

  const SlopeCodes: map<string, real> :=
    map["Upsloping" := 1.0, "Flat" := 2.0, "Downsloping" := 3.0]
  const SlopeDefault: real := 2.0

  const ThalCodes: map<string, real> :=
    map["Normal" := 3.0, "Fixed Defect" := 6.0, "Reversable Defect" := 7.0]
  const ThalDefault: real := 3.0

  /** Glucose strictly above this level counts as high fasting blood sugar. */
  const GlucoseThreshold: int := 120

  /** A dictionary lookup that falls back to a default for an unknown label: it never
      fails, and its code is always one of the table's codes or the default. */
  function Lookup(codes: map<string, real>, key: string, fallback: real): (c: real)
    ensures c in codes.Values || c == fallback
    ensures key in codes ==> c == codes[key]
    ensures key !in codes ==> c == fallback
  {
    if key in codes then codes[key] else fallback
  }

  function Flag(b: bool): real
  {
    if b then 1.0 else 0.0
  }

  /** The feature vector for one patient, in `Schema` order. */
  function Encode(p: PatientInput): (v: seq<real>)
    ensures |v| == |Schema| == FeatureCount
  {
    [ p.age as real,
      Flag(p.sex == "Male"),
      Lookup(ChestPainCodes, p.chestPain, ChestPainDefault),
      p.bloodPressure as real,
      p.cholesterol as real,
      Flag(p.glucose > GlucoseThreshold),
      Lookup(EcgCodes, p.restingEcg, EcgDefault),
      p.heartRate as real,
      Flag(p.exerciseAngina == "Yes"),
      p.stDepression,
      Lookup(SlopeCodes, p.stSlope, SlopeDefault),
      p.vessels as real,
      Lookup(ThalCodes, p.stressTest, ThalDefault) ]
  }

  /** The position constants name the features of the classifier's order. */
  lemma PositionsFollowSchema()
    ensures Schema[Age] == "age" && Schema[Sex] == "sex" && Schema[ChestPain] == "cp"
    ensures Schema[RestingBp] == "trestbps" && Schema[Cholesterol] == "chol"
    ensures Schema[FastingSugar] == "fbs" && Schema[RestingEcg] == "restecg"
    ensures Schema[MaxHeartRate] == "thalach" && Schema[ExerciseAngina] == "exang"
    ensures Schema[StDepression] == "oldpeak" && Schema[StSlope] == "slope"
    ensures Schema[Vessels] == "ca" && Schema[Thal] == "thal"
  {
  }

  /** The measured quantities reach the classifier unchanged, each at its own position. */
  lemma NumericPassThrough(p: PatientInput)
    ensures Encode(p)[Age] == p.age as real
    ensures Encode(p)[RestingBp] == p.bloodPressure as real
    ensures Encode(p)[Cholesterol] == p.cholesterol as real
    ensures Encode(p)[MaxHeartRate] == p.heartRate as real
    ensures Encode(p)[StDepression] == p.stDepression
    ensures Encode(p)[Vessels] == p.vessels as real
  {
  }

  /** The two yes/no features: sex is 1 exactly for "Male" and 0 otherwise, exercise
      angina is 1 exactly for "Yes" and 0 otherwise. */
  lemma BinaryCodes(p: PatientInput)
    ensures Encode(p)[Sex] in {0.0, 1.0}
    ensures Encode(p)[Sex] == 1.0 <==> p.sex == "Male"
    ensures Encode(p)[ExerciseAngina] in {0.0, 1.0}
    ensures Encode(p)[ExerciseAngina] == 1.0 <==> p.exerciseAngina == "Yes"
  {
  }

  /** Fasting blood sugar is derived from glucose with a strict threshold, so a
      reading of exactly 120 is not high. */
  lemma FastingSugarStrict(p: PatientInput)
    ensures Encode(p)[FastingSugar] in {0.0, 1.0}
    ensures Encode(p)[FastingSugar] == 1.0 <==> p.glucose > 120
    ensures p.glucose == 120 ==> Encode(p)[FastingSugar] == 0.0
  {
  }

  /** Every categorical code lies in its domain for any label; an unknown label
      takes the default code instead of failing. */
  lemma CategoricalDomains(p: PatientInput)
    ensures Encode(p)[ChestPain] in {1.0, 2.0, 3.0, 4.0}
    ensures Encode(p)[RestingEcg] in {0.0, 1.0, 2.0}
    ensures Encode(p)[StSlope] in {1.0, 2.0, 3.0}
    ensures Encode(p)[Thal] in {3.0, 6.0, 7.0}
    ensures p.chestPain !in ChestPainCodes ==> Encode(p)[ChestPain] == 4.0
    ensures p.restingEcg !in EcgCodes ==> Encode(p)[RestingEcg] == 0.0
    ensures p.stSlope !in SlopeCodes ==> Encode(p)[StSlope] == 2.0
    ensures p.stressTest !in ThalCodes ==> Encode(p)[Thal] == 3.0
  {
  }

  /** A female patient with asymptomatic chest pain and normal glucose. */
  lemma EncodeExample(p: PatientInput)
    requires p.sex == "Female" && p.chestPain == "Asymptomatic" && p.glucose == 90
    ensures Encode(p)[Sex] == 0.0 && Encode(p)[ChestPain] == 4.0 && Encode(p)[FastingSugar] == 0.0
  {
  }
}
