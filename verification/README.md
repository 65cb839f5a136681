# AarogyaAI / CureSight — a Dafny model of its decision logic

AarogyaAI is a health-records and cancer-risk platform in three parts:

- **Prediction APIs (Python).** They score a patient's feature vector with a pretrained
  classifier. They add a confidence band and a ranked SHAP attribution. The attribution is
  best-effort: when it fails, the rest of the prediction is still returned.
- **Node.js backend.** It holds:
  - the rule-based risk analysis;
  - the doctor-to-patient consent life cycle;
  - e-mail one-time passwords;
  - a simulated federated-learning round;
  - ABHA (Ayushman Bharat Health Account) verification and bundle assembly;
  - JSON extraction from language-model replies;
  - the patient profile.
- **React frontend ("CureSight" for doctors).** It guards routes by role, edits profile lists,
  charts risk contributors, bands risk scores, runs the Aadhaar verification pop-up and reads
  the patient bundle.

The model states this logic in Dafny and proves what each part promises.

**How the pieces are modelled**

- **Opaque collaborators become function parameters.** These are the scaler, the classifier,
  the explainer, `JSON.parse`, the language model, the hash (SHA-256 in the source),
  `parseFloat` and the image download.
- **Nondeterminism becomes parameters.** The clock (`now`), random draws, fresh consent ids
  (UUIDs in the source), outcomes of remote calls and whether `window.opener` exists are all
  passed in.
- **Database collections** become `map`s or `seq`s.
- **State-changing code becomes classes.** The consent store, the OTP store, the federated
  model document and the profile store are classes. Their methods change fields, and each
  method's `ensures` ties the new state to a pure step function. The properties are proved as
  lemmas about those step functions.
- **Pure code becomes functions.** The route guard, the profile-list edits, the chart, the
  banding and the bundle selection are datatypes and functions.
- **The Aadhaar pop-up is both.** Its step machine is a pure `Next` function, and a small
  class whose event handler is proved equal to it.

**Observations the proofs make precise**

- **The risk-score cap never applies.** The rule-based score starts at 20 and its factors add
  at most 77, so it never exceeds 97. The cap `min(baseRisk, 98)` is therefore never reached
  (`RiskAnalysis.RuleFactorsBounded`).
- **Expiry does not block approval.** Approval looks only at a consent's status. A pending
  consent past its `expiresAt` can still be approved unless a status check has first marked it
  expired.
- **The patient's own bundle would not trigger the lab rules.** The bundle that `getMockData`
  builds from a patient's uploads never contains a "Neutrophils" reading or a hemoglobin trend
  other than "stable", so the neutrophil and declining-hemoglobin rules would not fire on it.
  That bundle is only served to the doctor's page, though. The bundles the rule analysis reads
  are the ones `connectAbha` stores, taken from the synthetic data generator, and on those both
  rules do fire.
- **The gauge and the report disagree between 30 and 40.** The gauge's amber band starts above
  30, while the report's MODERATE band starts above 40. A score in (30, 40] is amber on the
  gauge and LOW on the report.
- **The chart sorts by signed impact.** The contributor chart sorts by signed `impact`, not by
  its absolute value.
- **The age rule reads a field the schema does not have.** The rule analysis reads
  `profile?.age`, but the stored profile keeps the age under `demographics`. The model takes
  the profile object as given, so with the schema as written the age defaults to 52.

## Model

| member | source | states |
|---|---|---|
| OncoPredict.Vector | backend/ai-ml/oncodetect-backend/api_onco.py:36-41 | with every feature present, the vector has one entry per feature and entry i is the value of feature i |
| OncoPredict.ExtraKeysIgnored | backend/ai-ml/oncodetect-backend/api_onco.py:36-41 | two inputs that agree on the feature names give the same vector, whatever other keys they carry |
| OncoPredict.BuildVector | backend/ai-ml/oncodetect-backend/api_onco.py:35-41 | the loop succeeds exactly when every feature is present, returning the ordered vector; otherwise its error names the first missing feature in feature order |
| OncoPredict.Label | backend/ai-ml/oncodetect-backend/api_onco.py:47-48 | the label is 0 or 1, and 1 exactly when the probability is strictly above 0.5 |
| OncoPredict.ConfidenceOf | backend/ai-ml/oncodetect-backend/api_onco.py:49-53 | "high" iff p > 0.75, "medium" iff 0.4 < p <= 0.75, "low" iff p <= 0.4 |
| OncoPredict.LabelAgreesWithBand | backend/ai-ml/oncodetect-backend/api_onco.py:47-53 | a high band implies label 1 and a low band label 0; label 0 with medium confidence happens exactly for p in (0.4, 0.5] |
| OncoPredict.FirstRow | backend/ai-ml/oncodetect-backend/api_onco.py:76-79 | element 0 of an array has the remaining dimensions and is the leading block of its data |
| OncoPredict.Normalise | backend/ai-ml/oncodetect-backend/api_onco.py:67-87 | a raised explainer, or a per-class list without a class 1, gives no values; a scalar gives values only when there are no features; a 2-D or deeper array yields its first row, flattened; a 1-D array yields values only when there are no features; an empty array yields none; a 0-d array, whose `len()` raises, gives no values, directly or as the class-1 array |
| OncoPredict.PerClassUsesClassOne | backend/ai-ml/oncodetect-backend/api_onco.py:71-72 | a per-class list is treated exactly like its class-1 array |
| OncoPredict.Pairs | backend/ai-ml/oncodetect-backend/api_onco.py:90-97 | min(features, values) pairs, pair i holding feature i and value i |
| OncoPredict.PairFeatures | backend/ai-ml/oncodetect-backend/api_onco.py:90-97 | the loop over all features, skipping positions past the values, builds exactly those pairs |
| OncoPredict.ExplanationRanked | backend/ai-ml/oncodetect-backend/api_onco.py:63-109 | an explanation exists iff an explainer is loaded, normalisation succeeds and at least one pair is formed; all_features is then a permutation of the pairs, sorted by absolute impact descending and stable on ties, and top_features is its first min(3, n) entries |
| OncoPredict.Predict | backend/ai-ml/oncodetect-backend/api_onco.py:28-112 | fails iff a feature is missing, naming the first one; otherwise risk, label and confidence come from the classifier's probability on the scaled vector, and the explanation is the one above or absent, never affecting the rest |
| BreastPredict.PredictRisk | backend/ai-ml/oncodetect-backend/api_main.py:28-49 | same first-missing-feature error; otherwise the class-1 probability and the classifier's own predicted class on the scaled vector, with no threshold |
| Ranking.Take | backend/ai-ml/oncodetect-backend/api_onco.py:104 | the first min(n, len) elements, in order |
| Ranking.SortDescCorrect | backend/ai-ml/oncodetect-backend/api_onco.py:100-101 | the sort is descending by key, keeps length and multiset, and keeps the input order among equal keys |
| Ranking.SortedUnique | backend/ai-ml/oncodetect-backend/api_onco.py:100-101 | a stable descending order is unique: two sorted sequences with the same elements per key are equal |
| Ranking.MaxHead | frontend/src/components/ShapChart.jsx:9 | the head of a descending sequence has the largest key and is the first element with that key |
| RiskAnalysis.ImageDocs | backend/nodejs/backend/controllers/aiController.js:52-58 | the image documents, in order: each kept one is an image of the input and every image of the input is kept |
| RiskAnalysis.CollectDocuments | backend/nodejs/backend/controllers/aiController.js:52-58 | the loop records every document id in order and collects exactly the image documents |
| RiskAnalysis.StageBands | backend/nodejs/backend/controllers/aiController.js:158-159 | the early-stage text iff score > 80, 'Moderate Risk' iff 50 < score <= 80, 'Low Risk' iff score <= 50 |
| RiskAnalysis.NextStepsBands | backend/nodejs/backend/controllers/aiController.js:206 | the biopsy text iff score > 70, the monitoring text otherwise |
| RiskAnalysis.Completeness | backend/nodejs/backend/controllers/aiController.js:149-154 | the completeness lies between 10 and 100 |
| RiskAnalysis.FallbackOrganRisks | backend/nodejs/backend/controllers/aiController.js:197-199 | without organ risks from the model, only the lung is scored, at the overall score |
| RiskAnalysis.TotalImpactAppend | backend/nodejs/backend/controllers/aiController.js:61-129 | pushing a factor adds exactly its impact to the total |
| RiskAnalysis.RuleFactorsImpacts | backend/nodejs/backend/controllers/aiController.js:65-129 | each rule's factor is listed iff its condition holds: age min((age-50)*1.5, 10) when age > 50, smoking 30, neutrophils 15, declining hemoglobin 10, hemoptysis 12 |
| RiskAnalysis.RuleFactorsOrdered | backend/nodejs/backend/controllers/aiController.js:61-129 | the factors come in rule order, each rule at most once |
| RiskAnalysis.RuleFactorsMembers | backend/nodejs/backend/controllers/aiController.js:61-129 | a factor is listed iff it is the increasing factor, with its fixed impact, of a rule whose condition holds |
| RiskAnalysis.RuleFactorsBounded | backend/nodejs/backend/controllers/aiController.js:61-132 | every factor increases the risk by more than 0 and at most 30, and together they add at most 77 |
| RiskAnalysis.AccumulateFactors | backend/nodejs/backend/controllers/aiController.js:61-129 | the step-by-step pushes produce the rule factors, and the base risk is 20 plus the sum of their impacts |
| RiskAnalysis.Push | backend/nodejs/backend/controllers/aiController.js:69-74 | one push appends the factor and keeps the risk equal to 20 plus the listed impacts |
| RiskAnalysis.ScoreRules | backend/nodejs/backend/controllers/aiController.js:61-132 | the capped score equals 20 plus the impacts and lies in [20, 97] |
| RiskAnalysis.AnalyzeData | backend/nodejs/backend/controllers/aiController.js:52-213 | given that the image downloads, the user lookup and the save succeed, fails exactly when the model call fails; otherwise it records the rule factors and score, the ids in order, confidence min(completeness, 95) in [10, 95], stage and next steps from the score, the model's organ risks or the lung fallback, and the model's explanation unless it is missing or empty |
| RiskAnalysis.StoredExplanation | backend/nodejs/backend/controllers/aiController.js:201 | the model's explanation is kept iff it is present and non-empty; otherwise the default sentence (None) is stored |
| RiskAnalysis.ViewOf | backend/nodejs/backend/controllers/aiController.js:226-247 | a results entry keeps the score and stage, has confidence 85, and gives each of the six organs its score or 0 |
| RiskAnalysis.GetResults | backend/nodejs/backend/controllers/aiController.js:221-253 | one view per stored analysis, in order |
| RiskAnalysis.AnalysisStatus | backend/nodejs/backend/controllers/aiController.js:263-270 | 404 iff the analysis is missing, 403 iff it belongs to another user, 200 iff it is the caller's |
| Entities.StatusName | backend/nodejs/backend/models/User.js:28 | the status is one of the four schema names |
| Entities.StatusNameInjective | backend/nodejs/backend/models/User.js:28 | distinct statuses have distinct names |
| Entities.FindByAbhaOrEmail | backend/nodejs/backend/services/consentService.js:18-22 | the first user whose ABHA id or e-mail is the id; none iff no user matches |
| Entities.FindById | backend/nodejs/backend/controllers/abhaController.js:150 | the first user with the id; none iff there is none |
| ConsentService.FindByPendingConsent | backend/nodejs/backend/services/consentService.js:68-72 | the first user whose pending consent has this id; none iff there is none |
| ConsentService.InitiateStep | backend/nodejs/backend/services/consentService.js:14-57 | fails with 'Patient not found', changing nothing, iff no user matches; otherwise stores a pending record with expiry one hour later under the fresh id and sets that patient's pendingConsent to it, leaving the other users as they were |
| ConsentService.StatusStep | backend/nodejs/backend/services/consentService.js:64-103 | null iff the consent is unknown; a pending consent strictly past its expiry is returned and stored as expired; any other consent is returned unchanged |
| ConsentService.UpdatePatient | backend/nodejs/backend/services/consentService.js:146-150 | the user found by the consent's patient id gets the new status on their pendingConsent exactly when that pending consent is the decided one; in every other case, including no patient id or no such user, nobody changes |
| ConsentService.DecideStep | backend/nodejs/backend/services/consentService.js:115-205 | unknown gives NotFound; a non-pending consent gives "Consent already <status>" and changes nothing; a pending one is stored approved or rejected, stamped with `now`, and the users become UpdatePatient of the old ones: the named patient's pendingConsent takes the decided status iff it is still this consent |
| ConsentService.DecisionReachesPatient | backend/nodejs/backend/services/consentService.js:146-150 | after a decision, the named patient whose pending consent is this one shows the decided status, and every other user is unchanged |
| ConsentService.DecidedIsFinal | backend/nodejs/backend/services/consentService.js:132-138 | approved, rejected and expired consents are final: neither decision nor the status check changes them |
| ConsentService.NoSecondDecision | backend/nodejs/backend/services/consentService.js:136-138 | after a successful decision, any further decision on the same consent is refused with its new status |
| ConsentService.ExpiryBlocksDecision | backend/nodejs/backend/services/consentService.js:87-91 | once the status check marks a consent expired, approval and rejection are refused with "Consent already expired" |
| ConsentService.ApprovalIgnoresExpiry | backend/nodejs/backend/services/consentService.js:136-143 | a pending consent past its expiry, not yet checked, is still approved |
| ConsentService.FreshRequestLifetime | backend/nodejs/backend/services/consentService.js:36-44 | a fresh request stays pending for status checks up to one hour after creation and becomes expired after that |
| ConsentService.SmsNotification | backend/nodejs/backend/services/consentService.js:212-222 | addressed to the ABHA id, stamped with the request time, buttons exactly ALLOW and DENY |
| ConsentService.SmsForNewRequest | backend/nodejs/backend/services/consentService.js:212-222 | the message for a new request goes to the ABHA id it was made for and is stamped `now` |
| ConsentService.ConsentStore.InitiateConsentRequest | backend/nodejs/backend/services/consentService.js:14-57 | the store and users after the call are those of the initiation step; the store stays keyed by consent id |
| ConsentService.ConsentStore.GetConsentStatus | backend/nodejs/backend/services/consentService.js:64-103 | result and new state are those of the status step |
| ConsentService.ConsentStore.Decide | backend/nodejs/backend/services/consentService.js:115-205 | result and new state are those of the decision step |
| ConsentService.ConsentStore.ApproveConsent | backend/nodejs/backend/services/consentService.js:115-157 | the decision step with Approve |
| ConsentService.ConsentStore.RejectConsent | backend/nodejs/backend/services/consentService.js:164-205 | the decision step with Reject |
| ConsentController.InitiateReply | backend/nodejs/backend/controllers/consentController.js:19-72 | a service failure gives 500 with its message; success gives 200 with the consent and its notification, whatever happens to the e-mail |
| ConsentController.RequestConsent | backend/nodejs/backend/controllers/consentController.js:13-72 | 400 iff the ABHA id is missing or not user@domain, and then nothing changes; otherwise the service reply |
| ConsentController.RequestGate | backend/nodejs/backend/controllers/consentController.js:13-17 | a malformed id is refused before any lookup, however the store looks |
| ConsentController.StatusReply | backend/nodejs/backend/controllers/consentController.js:83-92 | 404 iff nothing is found; 200 with the consent otherwise |
| ConsentController.DecisionReply | backend/nodejs/backend/controllers/consentController.js:107-158 | 404 for no consent, 400 carrying the service's error, 200 with the updated consent |
| ConsentController.SecondDecisionIs400 | backend/nodejs/backend/controllers/consentController.js:107-158 | a second decision on a consent is answered 400 naming its status |
| ConsentController.ExpiredDecisionIs400 | backend/nodejs/backend/controllers/consentController.js:107-125 | a consent the status check marked expired is answered 400 "Consent already expired" |
| OtpService.GenerateOtp | backend/nodejs/backend/services/otpService.js:5-7 | six decimal digits, no leading zero, value between 100000 and 999999 |
| OtpService.SendStep | backend/nodejs/backend/services/otpService.js:13-66 | refused with the wait message, changing nothing, iff the address's resend time is after `now`; otherwise the address's one record becomes (hash, now + 300000, now + 30000), other addresses unchanged, result true |
| OtpService.VerifyStep | backend/nodejs/backend/services/otpService.js:68-89 | errors in the source's order: no record, then a wrong hash, then strict expiry, none of them deleting; success iff the hash matches and now <= expiresAt, and it deletes the record |
| OtpService.SendThenVerify | backend/nodejs/backend/services/otpService.js:20-88 | a code just issued verifies at any time up to and including its expiry |
| OtpService.NoSecondVerify | backend/nodejs/backend/services/otpService.js:85-88 | after a successful check the same code reports 'OTP not found or expired' |
| OtpService.WrongCodeIsInvalid | backend/nodejs/backend/services/otpService.js:75-79 | with an injective hash, any other code is 'Invalid OTP', even after expiry |
| OtpService.LateCodeExpired | backend/nodejs/backend/services/otpService.js:81-83 | the right code after five minutes is 'OTP expired' and the record stays |
| OtpService.ResendWindow | backend/nodejs/backend/services/otpService.js:15-18 | a second request within thirty seconds is refused |
| OtpService.OtpStore.SendOtp | backend/nodejs/backend/services/otpService.js:13-66 | result and new records are those of the send step on the generated code |
| OtpService.OtpStore.VerifyOtp | backend/nodejs/backend/services/otpService.js:68-89 | result and new records are those of the verify step |
| Federated.FindHospital | backend/nodejs/backend/controllers/federatedController.js:47 | the first hospital with the id; none iff there is none |
| Federated.Registered | backend/nodejs/backend/controllers/federatedController.js:46-50 | an idle hospital is appended only when the id is new; unique ids stay unique |
| Federated.RegisterIdempotent | backend/nodejs/backend/controllers/federatedController.js:46-50 | registering the same id again, under any name, changes nothing |
| Federated.WithStatus | backend/nodejs/backend/controllers/federatedController.js:60-62 | every hospital gets the status, nothing else changes |
| Federated.MarkCompleted | backend/nodejs/backend/controllers/federatedController.js:75-79 | only the hospital with that id becomes completed at `now`; an unknown id changes nothing |
| Federated.MarkCompletedFacts | backend/nodejs/backend/controllers/federatedController.js:75-86 | ids stay unique; all hospitals are completed afterwards iff every other one already was |
| Federated.RoundCompletesWhenAllSubmit | backend/nodejs/backend/controllers/federatedController.js:58-86 | after a round starts, all hospitals are completed iff every registered id has submitted |
| Federated.Submitted | backend/nodejs/backend/controllers/federatedController.js:70-86 | a sequence of submissions keeps the number of hospitals |
| Federated.SubmittedFacts | backend/nodejs/backend/controllers/federatedController.js:70-86 | after a sequence of submissions a hospital is completed iff it was, or its id was submitted; ids stay unique |
| Federated.NextAccuracy | backend/nodejs/backend/controllers/federatedController.js:111-112 | min(0.98, acc + imp): never above 0.98, never lower for a non-negative improvement |
| Federated.NextLoss | backend/nodejs/backend/controllers/federatedController.js:113-114 | max(0.1, loss - 0.8 imp): never below 0.1, never higher for a non-negative improvement |
| Federated.AggregationStaysInBounds | backend/nodejs/backend/controllers/federatedController.js:106-115 | from within the bounds, accuracy rises within [acc, 0.98] and loss falls within [0.1, loss] |
| Federated.AggregationKeepsHistory | backend/nodejs/backend/controllers/federatedController.js:102-122 | the fresh model's history is valid, and aggregation keeps the history numbered 1..round-1 with accuracy non-decreasing and loss non-increasing |
| Federated.FederatedModel.GetModelInstance | backend/nodejs/backend/controllers/federatedController.js:4-17 | an existing document is untouched; otherwise one is created at round 1, 0.72, 0.45, idle, with no hospitals and empty history |
| Federated.FederatedModel.SetAllHospitals | backend/nodejs/backend/controllers/federatedController.js:60-62 | the hospitals become WithStatus of the old ones; every other field is unchanged |
| Federated.FederatedModel.GetGlobalState | backend/nodejs/backend/controllers/federatedController.js:19-39 | model and hospitals are reset to idle only when training or aggregating and more than 60000 ms stale; otherwise unchanged |
| Federated.FederatedModel.RegisterNode | backend/nodejs/backend/controllers/federatedController.js:41-56 | the hospitals become Registered of the old ones; round, accuracy and loss unchanged; updatedAt moves to now only when a hospital was added |
| Federated.FederatedModel.StartRound | backend/nodejs/backend/controllers/federatedController.js:58-68 | the model and every hospital go to training; updatedAt moves to now only when that changed something |
| Federated.FederatedModel.SubmitUpdate | backend/nodejs/backend/controllers/federatedController.js:70-100 | only the submitting hospital is completed; the model goes to aggregating iff every hospital is completed; updatedAt moves to now only when a hospital or the status changed |
| Federated.FederatedModel.AggregateWeights | backend/nodejs/backend/controllers/federatedController.js:102-125 | the old round is appended to history, the round advances by one, accuracy and loss follow NextAccuracy and NextLoss, and the model and hospitals return to idle |
| Federated.FederatedModel.ResetSimulation | backend/nodejs/backend/controllers/federatedController.js:127-135 | afterwards the document is exactly the fresh one |
| JsText.TrimStart | frontend/src/pages/HealthProfile.jsx:68 | the suffix after a run of leading whitespace, not starting with whitespace |
| JsText.TrimEnd | frontend/src/pages/HealthProfile.jsx:68 | the prefix before a run of trailing whitespace, not ending with whitespace |
| JsText.TrimInfix | frontend/src/pages/HealthProfile.jsx:68 | the trimmed value is a slice of the input with only whitespace outside it |
| JsText.TrimEnds | frontend/src/pages/HealthProfile.jsx:68 | the trimmed value neither starts nor ends with whitespace |
| JsText.TrimEmpty | frontend/src/pages/HealthProfile.jsx:68 | the trimmed value is empty exactly when the input is all whitespace |
| JsText.IndexOf | backend/nodejs/backend/services/geminiService.js:17 | the first position of the character, or none iff it does not occur |
| JsText.LastIndexOf | backend/nodejs/backend/services/geminiService.js:18 | the last position of the character, or none iff it does not occur |
| JsText.RemoveAllAbsent | backend/nodejs/backend/services/geminiService.js:32 | removing a pattern that does not occur changes nothing |
| JsText.SplitJoin | backend/nodejs/backend/controllers/abhaController.js:261-264 | joining the split parts with the separator gives back the string |
| JsText.SplitFirst | backend/nodejs/backend/controllers/abhaController.js:262 | with no separator the split is the whole string; otherwise its first part is the text before the first separator |
| JsText.SplitLast | backend/nodejs/backend/controllers/abhaController.js:262-264 | the last part of the split is the text after the last separator, or the whole string when there is none |
| JsText.SplitPieces | backend/nodejs/backend/controllers/abhaController.js:262 | no part of the split contains the separator |
| JsText.DigitsOnly | frontend/src/pages/AbhaVerification.jsx:75 | only digits remain, and a string of digits is kept as it is |
| JsText.ToLowerAscii | backend/nodejs/backend/controllers/abhaController.js:334 | same length, no upper-case letter left |
| JsText.DecimalRoundTrip | backend/nodejs/backend/services/otpService.js:6 | the decimal string of n reads back as n |
| JsText.AbhaFormatMeaning | backend/nodejs/backend/controllers/consentController.js:14 | the regex automaton accepts exactly the strings made of a non-empty part, one '@' and a non-empty part, with no whitespace and no other '@' |
| AbhaController.VerifyAbhaId | backend/nodejs/backend/controllers/abhaController.js:186-228 | 400, invalid and unregistered iff the id is not user@domain; otherwise 200, valid, and registered iff some user has that ABHA id or e-mail |
| AbhaController.NameSplit | backend/nodejs/backend/controllers/abhaController.js:261-264 | a name without spaces is both first and last name; otherwise the first name is the text before the first space and the last name the text after the last one |
| AbhaController.GenderOf | backend/nodejs/backend/controllers/abhaController.js:334 | the ASCII lower-case form of a present, non-empty string gender, and "unknown" otherwise; never empty |
| AbhaController.AgeOf | backend/nodejs/backend/controllers/abhaController.js:266 | a missing, null or zero age is 45; a non-zero number is kept |
| AbhaController.SmokingStatus | backend/nodejs/backend/controllers/abhaController.js:270-273 | 'Non-Smoker' iff the smoker answer is not truthy; for a smoker, the duration when it is a non-empty string, otherwise 'Smoker' |
| AbhaController.DocumentRecord | backend/nodejs/backend/controllers/abhaController.js:287-322 | a report yields a Hemoglobin observation iff it has a hemoglobin field; otherwise an imaging document yields an ImagingStudy with its file name; all others yield nothing |
| AbhaController.MedicalRecords | backend/nodejs/backend/controllers/abhaController.js:284-322 | at most one record per document |
| AbhaController.MedicalRecordsAppend | backend/nodejs/backend/controllers/abhaController.js:284-322 | the records of two runs of documents are those of the first followed by those of the second: records keep document order |
| AbhaController.MedicalRecordsOne | backend/nodejs/backend/controllers/abhaController.js:287-322 | a single document contributes exactly its own record, or nothing |
| AbhaController.MedicalRecordsFromDocuments | backend/nodejs/backend/controllers/abhaController.js:284-322 | a resource is a record iff some document yields it; each is an ImagingStudy or a Hemoglobin observation |
| AbhaController.MapDocuments | backend/nodejs/backend/controllers/abhaController.js:284-322 | the push loop builds exactly the records, in document order |
| AbhaController.CurrentHemoglobin | backend/nodejs/backend/controllers/abhaController.js:361 | 0 when no record is coded "Hemoglobin"; a non-zero current value is the value of some observation among the records |
| AbhaController.CurrentHemoglobinAt | backend/nodejs/backend/controllers/abhaController.js:361 | the value is read from the first record coded "Hemoglobin": its quantity, or 0 when it has none |
| AbhaController.PatientEntry | backend/nodejs/backend/controllers/abhaController.js:266-267 | the Patient entry is keyed by e-mail, aged AgeOf (45 without an age) and born that many years before the current year |
| AbhaController.PatientBundle | backend/nodejs/backend/controllers/abhaController.js:328-367 | the entries are the Patient (keyed by e-mail), then the records, then the smoking entry; the trend is 'stable' at the current hemoglobin |
| AbhaController.GetMockData | backend/nodejs/backend/controllers/abhaController.js:233-377 | 404 and no bundle iff no user has the ABHA id or e-mail; otherwise 200 with the bundle built for the first such user from the given profile sections and documents |
| AbhaController.OwnRecordsTriggerNoLabRule | backend/nodejs/backend/controllers/abhaController.js:328-367 | such a bundle never triggers the neutrophil or the declining-hemoglobin rule |
| AbhaController.ConnectAbha | backend/nodejs/backend/controllers/abhaController.js:143-181 | 400 iff the id is missing or empty, 404 iff the user is unknown, both changing nothing; otherwise only that user changes, taking the id and the fetched bundle appended to its data |
| AbhaController.ConnectTwiceKeepsBoth | backend/nodejs/backend/controllers/abhaController.js:164-168 | connecting twice keeps both bundles, in order, after the earlier data |
| GeminiService.Candidate | backend/nodejs/backend/services/geminiService.js:17-22 | a slice exists iff a '{' occurs and a '}' occurs after it; it starts with '{' and ends with '}' |
| GeminiService.CandidateOfWrapped | backend/nodejs/backend/services/geminiService.js:17-22 | an object wrapped in text with no '{' before it and no '}' after it is found exactly |
| GeminiService.Sanitize | backend/nodejs/backend/services/geminiService.js:25 | the result is no longer and contains no control character |
| GeminiService.SanitizeAppend | backend/nodejs/backend/services/geminiService.js:25 | sanitising works piece by piece: the characters it keeps stay in order |
| GeminiService.SanitizeClean | backend/nodejs/backend/services/geminiService.js:25 | text without control characters is left unchanged |
| GeminiService.StripFencesFacts | backend/nodejs/backend/services/geminiService.js:32-34 | a fenced JSON block gives its trimmed body; an unfenced body gives its trimmed self |
| GeminiService.ExtractFromChatter | backend/nodejs/backend/services/geminiService.js:15-40 | for an object in chatter the slice is parsed, and retried once after sanitising when the first parse fails |
| GeminiService.Parts | backend/nodejs/backend/services/geminiService.js:85-91 | the prompt first, then one inline part per image, in order |
| GeminiService.BuildParts | backend/nodejs/backend/services/geminiService.js:85-91 | the push loop builds exactly those parts |
| GeminiService.AnalyzeHealthData | backend/nodejs/backend/services/geminiService.js:42-102 | the model receives exactly those parts; success iff the call succeeds and a JSON object is extracted, and any failure is 'Failed to analyze data with AI' |
| GeminiService.GenerateHealthPlan | backend/nodejs/backend/services/geminiService.js:104-141 | a plan iff the call succeeds and JSON is extracted; any failure gives null rather than an error |
| OcrService.StrictIsNarrower | backend/nodejs/backend/services/ocrService.js:24-37 | whatever this extractor reads, the analysis extractor reads the same way; they differ only where sanitising rescues a parse |
| OcrService.ExtractText | backend/nodejs/backend/services/ocrService.js:39-94 | plain text and JSON return their content; other types outside images and PDF return empty text; images and PDF return the parsed reply, the raw reply, or the error text |
| OcrService.ExtractTextFacts | backend/nodejs/backend/services/ocrService.js:44-93 | plain text never depends on the model; an unparsable image reply is kept as text; a model error gives text starting "[Error extracting text with AI: " |
| PatientController.Merge | backend/nodejs/backend/controllers/patientController.js:31-34 | keys of both; the update's values win and other old values stay |
| PatientController.MergeFacts | backend/nodejs/backend/controllers/patientController.js:31-34 | merging the same update twice is merging it once; merging nothing changes nothing |
| PatientController.Updated | backend/nodejs/backend/controllers/patientController.js:31-34 | each of the four sections is merged when present in the body and unchanged when absent; the owner is kept |
| PatientController.UpdateIdempotent | backend/nodejs/backend/controllers/patientController.js:21-41 | sending the same update twice has the effect of sending it once |
| PatientController.ProfileStore.GetProfile | backend/nodejs/backend/controllers/patientController.js:6-16 | 404 iff the user has no profile, else 200 with it |
| PatientController.ProfileStore.UpdateProfile | backend/nodejs/backend/controllers/patientController.js:21-41 | the user's profile, or a new empty one, updated and stored; other users' profiles unchanged |
| ProtectedRoute.HomeOf | frontend/src/components/ProtectedRoute.jsx:16-22 | a refused user goes to /dashboard iff patient, to /curesight/search iff doctor, else to / |
| ProtectedRoute.Guard | frontend/src/components/ProtectedRoute.jsx:4-26 | the page renders iff there is a token and the role is admitted (an empty list admits all); no token goes to /login whatever the role; otherwise the role's home |
| ProtectedRoute.GuardMonotone | frontend/src/components/ProtectedRoute.jsx:14 | widening a non-empty allowed list never locks out an admitted user; refused users are sent to the same place whatever the list |
| ProtectedRoute.RolesSentHome | frontend/src/components/ProtectedRoute.jsx:14-22 | a patient on a doctor page goes to the dashboard, a doctor on a patient page to search, an unknown role home |
| HealthProfile.WithoutIndexIs | frontend/src/pages/HealthProfile.jsx:84 | removing an index in range removes exactly that element, keeping the order; an index out of range removes nothing |
| HealthProfile.AddArrayItem | frontend/src/pages/HealthProfile.jsx:67-77 | a blank value changes nothing; otherwise the trimmed value is appended to that list and nothing else changes |
| HealthProfile.RemoveArrayItem | frontend/src/pages/HealthProfile.jsx:79-87 | only that list changes, losing exactly the element at the index |
| HealthProfile.RemoveUndoesAdd | frontend/src/pages/HealthProfile.jsx:67-87 | removing the item just added gives back the original profile |
| HealthProfile.RemoveOutsideIsNoOp | frontend/src/pages/HealthProfile.jsx:79-87 | removing at an index out of range changes nothing |
| ShapChart.BarOf | frontend/src/components/ShapChart.jsx:13-43 | '+' iff the factor increases the risk, '-' iff it decreases it; width times 35 is impact times 100 |
| ShapChart.BarColours | frontend/src/components/ShapChart.jsx:14-16 | red bar and red text iff the sign is '+', green bar iff it is '-' |
| ShapChart.Chart | frontend/src/components/ShapChart.jsx:5-9 | nothing is drawn iff the factors are missing or empty; otherwise one bar per factor |
| ShapChart.ChartOrdered | frontend/src/components/ShapChart.jsx:9-13 | the bars are the factors sorted by signed impact, descending, stable on ties, a permutation of the input, with the largest first |
| ShapChart.RuleChartBars | frontend/src/components/ShapChart.jsx:9-43 | the rule analysis's factors all draw '+' bars at most 100% wide |
| ShapChart.SmokerChartLeadsWithSmoking | frontend/src/components/ShapChart.jsx:9-13 | for a smoker the first bar drawn is smoking history |
| MedicalReport.LevelOf | frontend/src/pages/MedicalReport.jsx:110 | HIGH iff score > 70, MODERATE iff 40 < score <= 70, LOW iff score <= 40 |
| MedicalReport.StylesAgreeWithLevel | frontend/src/pages/MedicalReport.jsx:110-113 | two scores share gradient, text colour and border exactly when they share a level |
| MedicalReport.FirstImage | frontend/src/pages/MedicalReport.jsx:42 | none iff no document is an image; otherwise the first image document |
| MedicalReport.FirstImageAppend | frontend/src/pages/MedicalReport.jsx:42 | the first image of a concatenation is that of the first part, if any, else that of the second |
| MedicalReport.FirstImageIsFirstSent | frontend/src/pages/MedicalReport.jsx:42 | the image shown is the first image the analysis sent to the model |
| MedicalReport.ImageUrl | frontend/src/pages/MedicalReport.jsx:41-61 | the fallback radiograph when there is no image or its download fails; otherwise the downloaded URL |
| MedicalReport.ReportPage | frontend/src/pages/MedicalReport.jsx:101-165 | "not found" iff there is no analysis; otherwise score (0 when missing), level, gradient, text colour and border all follow the score, and chart and image come from the analysis |
| PatientHandout.HandoutScore | frontend/src/pages/PatientHandout.jsx:59 | no analysis reads as 0; otherwise the report's score |
| PatientHandout.HandoutAgreesWithReport | frontend/src/pages/PatientHandout.jsx:60-61 | the handout's words are the report's level plus " RISK", and its colour is the report's |
| PatientHandout.ShownRecommendations | frontend/src/pages/PatientHandout.jsx:147 | the first min(3, n) recommendations, in order |
| PatientHandout.FirstReferral | frontend/src/pages/PatientHandout.jsx:118 | an appointment iff a first referral exists, and it is that referral |
| PatientHandout.HandoutOf | frontend/src/pages/PatientHandout.jsx:59-147 | score, level and colour agree with the report; with an analysis, the appointment is its first referral and the recommendations its first three; without one, neither is shown |
| PatientHandout.MissingAnalysisReadsLow | frontend/src/pages/PatientHandout.jsx:59-61 | with no analysis the handout reads 0, "LOW RISK", in green, with nothing else |
| RiskGauge.GaugeData | frontend/src/components/RiskGauge.jsx:6-9 | two slices, the score and the remainder, summing to 100 |
| RiskGauge.ColorOf | frontend/src/components/RiskGauge.jsx:11-13 | green iff score <= 30, amber iff 30 < score <= 70, red iff score > 70 |
| RiskGauge.GaugeColor | frontend/src/components/RiskGauge.jsx:11-13 | the two successive overwrites give exactly those bands |
| RiskGauge.GaugeVersusReport | frontend/src/components/RiskGauge.jsx:11-13 | red iff the report says HIGH, green implies LOW, and (30, 40] is amber on the gauge but LOW on the report |
| AbhaVerification.Typed12 | frontend/src/pages/AbhaVerification.jsx:74-77 | the digits of the text are taken iff there are at most 12 of them; otherwise the value is kept |
| AbhaVerification.Next | frontend/src/pages/AbhaVerification.jsx:9-83 | at most 12 digits always, exactly 12 once past input; steps only advance, by one at most; input goes to verifying iff verify is pressed with 12 digits; a message is posted iff the hand-back timer fires in success with an opener |
| AbhaVerification.Run | frontend/src/pages/AbhaVerification.jsx:9-36 | any series of events keeps the input invariant |
| AbhaVerification.RunOnlyAdvances | frontend/src/pages/AbhaVerification.jsx:9-36 | along any series of events the step never goes back; messages are posted only from success with 12 digits; leaving input needs a press |
| AbhaVerification.NoMessageWithoutPress | frontend/src/pages/AbhaVerification.jsx:19-36 | without a press of verify the page stays in input and posts nothing |
| AbhaVerification.VerificationPage.constructor | frontend/src/pages/AbhaVerification.jsx:6-7 | the page starts in input with an empty number |
| AbhaVerification.VerificationPage.Handle | frontend/src/pages/AbhaVerification.jsx:9-83 | each handler and timer changes the state exactly as Next does |
| DataAggregation.OnMount | frontend/src/pages/DataAggregation.jsx:25-31 | redirect to search without fetching iff the id is missing or empty; otherwise fetch that id |
| DataAggregation.FirstOfType | frontend/src/pages/DataAggregation.jsx:79 | none iff no entry has the type; otherwise an entry of the bundle that has it |
| DataAggregation.FirstOfTypeAt | frontend/src/pages/DataAggregation.jsx:79 | the entry found is the first of the type: an entry of the type with none before it is the one returned |
| DataAggregation.HemoglobinObs | frontend/src/pages/DataAggregation.jsx:80-82 | exactly the observations coded "Hemoglobin", drawn from the entries |
| DataAggregation.FirstOfTypeAppend | frontend/src/pages/DataAggregation.jsx:79 | first-of-type over a concatenation looks in the first part first |
| DataAggregation.HemoglobinObsAppend | frontend/src/pages/DataAggregation.jsx:80-82 | the filter distributes over concatenation, keeping bundle order |
| DataAggregation.Extract | frontend/src/pages/DataAggregation.jsx:79-85 | all undefined without a bundle; otherwise the first Patient, the hemoglobin observations and the first ImagingStudy |
| DataAggregation.DisplayName | frontend/src/pages/DataAggregation.jsx:96 | the patient's family name when there is one, otherwise the ABHA id |
| DataAggregation.ReadsBackendBundle | frontend/src/pages/DataAggregation.jsx:79-85 | on the backend's bundle the page shows its patient, the hemoglobin readings among the records in order, and the first imaging study among them |
| DataAggregation.ReadingsComeFromReports | frontend/src/pages/DataAggregation.jsx:80-82 | every reading shown comes from one of the patient's uploaded reports |
| DataAggregation.ExactCodeOnly | frontend/src/pages/DataAggregation.jsx:80-82 | a reading labelled "Hemoglobin (3 months ago)" is not shown |

## Left out

- Model fitting, artefact loading, the scaler, the classifier and the SHAP explainer are opaque functions. Only the probability's range [0, 1] is assumed of them.
- A scaler or classifier that raises (a scoring error) is not modelled: `scale` and `proba` are total functions.
- The training scripts, `generateMockData` and the synthetic data are not part of this model.
- The database is modelled as maps and sequences, with no concurrency between requests. Mongoose's schema casting, enum validation, the `createdAt` timestamps, the `timestamp` of each federated history entry and the OTP TTL index (automatic deletion of expired codes) are not modelled.
- The e-mail and n8n webhooks, the SMS text in Hindi, JWT signing and bcrypt are I/O and are left out. Their outcomes, where they matter, never change a result.
- SHA-256 is an opaque hash parameter, assumed injective only where a lemma says so. UUID v4 is a fresh-id parameter, and the clock and `Math.random()` are parameters.
- The `setTimeout` that triggers aggregation 2 s after the last submission is modelled as a separate call to `AggregateWeights`.
- Base64 encoding of images and the prompt texts are left out; the prompts are parameters.
- AbhaController.GetMockData: the profile sections and the documents are inputs, assumed to be those of the user found, with the documents newest first (the source sorts them by `createdAt` descending, which decides which hemoglobin record is current). The source also creates an empty profile when the user has none; that write is not modelled, and the new profile's sections are passed in like any others.
- RiskAnalysis.AnalyzeData: the image buffers, the user and the store are taken as available. The GridFS download of an image document can reject, `User.findById` can return no user (whose `connectedHospitalData` is then read anyway), and `Analysis.create` can reject; each of these also ends the request with 500, and none is modelled.
- OcrService.ExtractText: the file's content is a parameter. The GridFS download that reads it can reject, and that failure is not modelled.
- The factor `value` strings, the default explanation sentence, and the recommendation, referral and heatmap constants of the rule analysis are not modelled.
- Numbers are real numbers: NaN, infinities, rounding, non-numeric ages and ragged explainer arrays are not modelled.
- Rendering is left out: JSX markup, animations, the loading state, `URL.revokeObjectURL`, `window.close()`, the doctor's review form on the report page, and pushing or downloading the handout.
- OncoPredict.Normalise: only the shapes the explainer can return are modelled (a list of arrays per class, an array, or a number). Arrays are rectangular, so flattening is the identity on their data.
- HealthProfile.AddArrayItem: requires that the field already holds a list. On a profile without it the source raises a TypeError, and that case is not modelled.
- HealthProfile.RemoveArrayItem: requires that the field already holds a list, for the same reason.
- AbhaVerification.Next: the input field and the button exist only in the input step, and each timer only in its own step. Events that cannot occur in the current step are modelled as no-ops.
- RiskAnalysis.AgeOf: reads the `age` field of the profile object it is given. The stored profile keeps the age under `demographics`, so in practice the default of 52 applies.
