/** The request-body schemas for tours: the full tour, and the update body
    (every field optional, `createdAt` removed). Both end with a refinement
    that compares `price` with `priceDiscount`. */
module TourSchemas {

  import opened Wrappers
  import opened Zod
  import Strings

  const NameTooShort: string := "A tour name must have 10 or more characters"
  const NameTooLong: string := "A tour must have atmost 40 characters"
  const DiscountMessage: string := "Discount price should be below regular price"

  const TourNameSchema: Schema :=
    ZString(Some("A tour must have a name"), [Trim, MinLength(10, Some(NameTooShort)), MaxLength(40, Some(NameTooLong))])
  const RatingsAverageSchema: Schema :=
    ZDefault(Num(4.5), ZOptional(ZNumber(None, [AtLeast(1.0, Some("Rating must be above 1.0")),
                                                AtMost(5.0, Some("Rating must be below 5.0"))])))
  const RatingsQuantitySchema: Schema := ZDefault(Num(0.0), ZOptional(ZNumber(None, [])))
  const PriceSchema: Schema := ZNumber(Some("A tour must have a price"), [])
  const PriceDiscountSchema: Schema := ZOptional(ZNumber(None, []))
  const SecretTourSchema: Schema := ZDefault(Bool(false), ZOptional(ZBoolean))
  const DifficultyMessage: string := "Difficulty is either: easy, medium, difficult"
  const Difficulties: seq<string> := ["easy", "medium", "difficult"]
  const DifficultySchema: Schema := ZEnum(Difficulties, Some(DifficultyMessage))
  const ImagesSchema: Schema := ZOptional(ZArray(ZString(None, [])))
  const StartDatesSchema: Schema := ZOptional(ZArray(ZUnion(ZString(None, []), ZDate)))

  const TourShape: seq<Field> := [
    Field("name", TourNameSchema),
    Field("slug", ZOptional(ZString(None, []))),
    Field("duration", ZNumber(Some("A tour must have a duration"), [])),
    Field("maxGroupSize", ZNumber(Some("A tour must have a group size"), [])),
    Field("difficulty", DifficultySchema),
    Field("ratingsAverage", RatingsAverageSchema),
    Field("ratingsQuantity", RatingsQuantitySchema),
    Field("price", PriceSchema),
    Field("priceDiscount", PriceDiscountSchema),
    Field("summary", ZString(Some("A tour must have a summary"), [Trim])),
    Field("description", ZOptional(ZString(None, [Trim]))),
    Field("imageCover", ZString(Some("A tour must have a cover image"), [])),
    Field("images", ImagesSchema),
    Field("createdAt", ZOptional(ZDate)),
    Field("startDates", StartDatesSchema),
    Field("secretTour", SecretTourSchema)
  ]

  const BasicTourSchema: Schema := ZObject(TourShape)

  /** The seven fields a tour must have, each with its own `required_error`. */
  const RequiredMessages: map<string, string> := map[
    "name" := "A tour must have a name",
    "duration" := "A tour must have a duration",
    "maxGroupSize" := "A tour must have a group size",
    "difficulty" := DifficultyMessage,
    "price" := "A tour must have a price",
    "summary" := "A tour must have a summary",
    "imageCover" := "A tour must have a cover image"
  ]

  /** The update shape: `createdAt` omitted, then every field optional. */
  const UpdateTourShape: seq<Field> := Partial(Omit(TourShape, {"createdAt"}))

  /** JavaScript's `a > b` on what the refinement can see — numbers and
      undefined: an undefined side converts to NaN, and every comparison with
      NaN is false. */
  predicate GreaterThan(a: JsValue, b: JsValue) {
    a.Num? && b.Num? && a.n > b.n
  }

  /** `val.price > val.priceDiscount`. */
  predicate PriceAboveDiscount(v: JsValue) {
    GreaterThan(Get(v, "price"), Get(v, "priceDiscount"))
  }

  const DiscountPath: seq<PathItem> := [Key("priceDiscount")]

  const TourSchema: Schema := ZRefine(BasicTourSchema, PriceAboveDiscount, DiscountPath, DiscountMessage)
  const UpdateTourSchema: Schema := ZRefine(ZObject(UpdateTourShape), PriceAboveDiscount, DiscountPath, DiscountMessage)

  /** The comparison as evidently intended: a discount, when there is one, is
      below the price. */
  predicate DiscountBelowPrice(v: JsValue) {
    Get(v, "priceDiscount").Undefined? || GreaterThan(Get(v, "price"), Get(v, "priceDiscount"))
  }

  const IntendedTourSchema: Schema := ZRefine(BasicTourSchema, DiscountBelowPrice, DiscountPath, DiscountMessage)
  const IntendedUpdateTourSchema: Schema :=
    ZRefine(ZObject(UpdateTourShape), DiscountBelowPrice, DiscountPath, DiscountMessage)

  // ---------------------------------------------------------------------------
  // Fields

  /** The name is trimmed first; the length limits apply to the trimmed name. */
  lemma TourNameRule(v: JsValue, path: seq<PathItem>, isEmail: string -> bool)
    ensures !v.Str? ==>
      Parse(TourNameSchema, v, path, isEmail) == Abort(InvalidType, path, TypeErrorMessage(Some("A tour must have a name"), v))
    ensures v.Str? ==>
      var t := Strings.Trim(v.s);
      Parse(TourNameSchema, v, path, isEmail) ==
      Checked(Str(t), (if |t| < 10 then [Issue(TooSmall(10.0), path, Some(NameTooShort))] else []) +
                      (if |t| > 40 then [Issue(TooBig(40.0), path, Some(NameTooLong))] else []))
  {
    if v.Str? {
      var t := Strings.Trim(v.s);
      var tooShort := if |t| < 10 then [Issue(TooSmall(10.0), path, Some(NameTooShort))] else [];
      var tooLong := if |t| > 40 then [Issue(TooBig(40.0), path, Some(NameTooLong))] else [];
      var checks := [Trim, MinLength(10, Some(NameTooShort)), MaxLength(40, Some(NameTooLong))];
      var last := [MaxLength(40, Some(NameTooLong))];
      assert last[1..] == [];
      assert StringChecks(t, [], path, isEmail) == (t, []);
      assert tooLong + [] == tooLong;
      assert StringChecks(t, last, path, isEmail) == (t, tooLong);
      assert StringChecks(t, checks[1..], path, isEmail) == (t, tooShort + tooLong) by {
        assert checks[1..][1..] == [MaxLength(40, Some(NameTooLong))];
      }
    }
  }

  /** A missing average becomes 4.5; a given one must lie between 1 and 5. */
  lemma RatingsAverageRule(v: JsValue, path: seq<PathItem>, isEmail: string -> bool)
    ensures v.Undefined? ==> Parse(RatingsAverageSchema, v, path, isEmail) == Parsed(Valid, Num(4.5), [])
    ensures v.Num? ==>
      Parse(RatingsAverageSchema, v, path, isEmail) ==
      Checked(v, (if v.n < 1.0 then [Issue(TooSmall(1.0), path, Some("Rating must be above 1.0"))] else []) +
                 (if v.n > 5.0 then [Issue(TooBig(5.0), path, Some("Rating must be below 5.0"))] else []))
    ensures !v.Undefined? && !v.Num? ==> Parse(RatingsAverageSchema, v, path, isEmail) == Abort(InvalidType, path, None)
  {
    var checks := [AtLeast(1.0, Some("Rating must be above 1.0")), AtMost(5.0, Some("Rating must be below 5.0"))];
    var x := if v.Num? then v.n else 4.5;
    assert NumberChecks(x, checks[1..][1..], path) == [];
    assert NumberChecks(x, checks[1..], path) ==
      if x > 5.0 then [Issue(TooBig(5.0), path, Some("Rating must be below 5.0"))] else [];
  }

  /** The difficulty must be one of the three levels; a missing one gets the
      schema's own message. */
  lemma DifficultyRule(v: JsValue, path: seq<PathItem>, isEmail: string -> bool)
    ensures Parse(DifficultySchema, v, path, isEmail) ==
      if !v.Str? then Abort(InvalidType, path, TypeErrorMessage(Some(DifficultyMessage), v))
      else if v.s !in Difficulties then Abort(InvalidEnumValue, path, None)
      else Parsed(Valid, v, [])
    ensures v.Undefined? ==>
      Parse(DifficultySchema, v, path, isEmail).issues == [Issue(InvalidType, path, Some(DifficultyMessage))]
  {
  }

  predicate IsStringList(v: JsValue) {
    v.Arr? && forall k :: 0 <= k < |v.items| ==> v.items[k].Str?
  }

  /** A start date is a string or a `Date`. */
  predicate IsDateList(v: JsValue) {
    v.Arr? && forall k :: 0 <= k < |v.items| ==> v.items[k].Str? || v.items[k].Date?
  }

  /** `images`, when given, is an array of strings. */
  lemma ImagesRule(v: JsValue, path: seq<PathItem>, isEmail: string -> bool)
    ensures Parse(ImagesSchema, v, path, isEmail).status == Valid <==> v.Undefined? || IsStringList(v)
  {
    if v.Arr? {
      ArrayValid(ZString(None, []), v, path, isEmail);
      forall k | 0 <= k < |v.items|
        ensures Parse(ZString(None, []), v.items[k], path + [Index(k)], isEmail).status == Valid <==> v.items[k].Str?
      {
        if v.items[k].Str? {
          assert StringChecks(v.items[k].s, [], path + [Index(k)], isEmail) == (v.items[k].s, []);
        }
      }
    }
  }

  /** `startDates`, when given, is an array of strings and `Date`s. */
  lemma StartDatesRule(v: JsValue, path: seq<PathItem>, isEmail: string -> bool)
    ensures Parse(StartDatesSchema, v, path, isEmail).status == Valid <==> v.Undefined? || IsDateList(v)
  {
    var option := ZUnion(ZString(None, []), ZDate);
    if v.Arr? {
      ArrayValid(option, v, path, isEmail);
      forall k | 0 <= k < |v.items|
        ensures Parse(option, v.items[k], path + [Index(k)], isEmail).status == Valid <==>
          v.items[k].Str? || v.items[k].Date?
      {
        if v.items[k].Str? {
          assert StringChecks(v.items[k].s, [], path + [Index(k)], isEmail) == (v.items[k].s, []);
        }
      }
    }
  }

  /** A string schema whose only check is an optional trim accepts exactly the strings. */
  lemma PlainStringRule(req: Option<string>, checks: seq<StringCheck>, v: JsValue, path: seq<PathItem>,
                        isEmail: string -> bool)
    requires checks == [] || checks == [Trim]
    ensures Parse(ZString(req, checks), v, path, isEmail).status == Valid <==> v.Str?
    ensures Parse(ZOptional(ZString(req, checks)), v, path, isEmail).status == Valid <==> v.Undefined? || v.Str?
  {
    if v.Str? {
      var out := if checks == [] then v.s else Strings.Trim(v.s);
      assert StringChecks(out, [], path, isEmail) == (out, []);
      assert checks != [] ==> checks[1..] == [];
    }
  }

  /** A number schema without checks accepts exactly the numbers, whether
      required, optional or defaulted to 0. */
  lemma PlainNumberRule(v: JsValue, path: seq<PathItem>, isEmail: string -> bool)
    ensures Parse(PriceSchema, v, path, isEmail).status == Valid <==> v.Num?
    ensures Parse(PriceDiscountSchema, v, path, isEmail).status == Valid <==> v.Undefined? || v.Num?
    ensures Parse(RatingsQuantitySchema, v, path, isEmail).status == Valid <==> v.Undefined? || v.Num?
  {
  }

  /** The rating and price entries of the tour shape. */
  lemma TourShapePriceEntries()
    ensures |TourShape| == 16
    ensures TourShape[5] == Field("ratingsAverage", RatingsAverageSchema)
    ensures TourShape[6] == Field("ratingsQuantity", RatingsQuantitySchema)
    ensures TourShape[7] == Field("price", PriceSchema)
    ensures TourShape[8] == Field("priceDiscount", PriceDiscountSchema)
  {
  }

  // ---------------------------------------------------------------------------
  // The tour body

  /** A name whose trimmed text has 10 to 40 characters. */
  predicate IsTourName(v: JsValue) {
    v.Str? && 10 <= |Strings.Trim(v.s)| <= 40
  }

  predicate Absent(v: JsValue) {
    v.Undefined?
  }

  /** The name, slug, duration, group size and difficulty of a tour body. */
  predicate TourHeadValid(m: map<string, JsValue>) {
    IsTourName(Lookup(m, "name")) &&
    (Absent(Lookup(m, "slug")) || Lookup(m, "slug").Str?) &&
    Lookup(m, "duration").Num? && Lookup(m, "maxGroupSize").Num? &&
    Lookup(m, "difficulty").Str? && Lookup(m, "difficulty").s in Difficulties
  }

  /** The ratings and prices of a tour body. */
  predicate TourPricesValid(m: map<string, JsValue>) {
    var average := Lookup(m, "ratingsAverage");
    (Absent(average) || (average.Num? && 1.0 <= average.n <= 5.0)) &&
    (Absent(Lookup(m, "ratingsQuantity")) || Lookup(m, "ratingsQuantity").Num?) &&
    Lookup(m, "price").Num? &&
    (Absent(Lookup(m, "priceDiscount")) || Lookup(m, "priceDiscount").Num?)
  }

  /** The summary, description and cover image of a tour body. */
  predicate TourTextValid(m: map<string, JsValue>) {
    Lookup(m, "summary").Str? &&
    (Absent(Lookup(m, "description")) || Lookup(m, "description").Str?) &&
    Lookup(m, "imageCover").Str?
  }

  /** The images, dates and secrecy flag of a tour body. */
  predicate TourExtrasValid(m: map<string, JsValue>) {
    (Absent(Lookup(m, "images")) || IsStringList(Lookup(m, "images"))) &&
    (Absent(Lookup(m, "createdAt")) || Lookup(m, "createdAt").Date?) &&
    (Absent(Lookup(m, "startDates")) || IsDateList(Lookup(m, "startDates"))) &&
    (Absent(Lookup(m, "secretTour")) || Lookup(m, "secretTour").Bool?)
  }

  /** What each field of a tour body must be for the object to parse cleanly. */
  predicate TourFieldsValid(m: map<string, JsValue>) {
    TourHeadValid(m) && TourPricesValid(m) && TourTextValid(m) && TourExtrasValid(m)
  }

  /** Every field of the tour shape from `lo` up to `hi` parses cleanly. */
  predicate FieldsValidIn(m: map<string, JsValue>, path: seq<PathItem>, isEmail: string -> bool, lo: nat, hi: nat)
    requires hi <= |TourShape|
  {
    forall k :: lo <= k < hi ==> FieldParse(TourShape, k, m, path, isEmail).status == Valid
  }

  /** The first five fields of the tour shape, read from `m`, against their own rules. */
  lemma TourHeadFieldRules(m: map<string, JsValue>, path: seq<PathItem>, isEmail: string -> bool)
    ensures |TourShape| == 16
    ensures FieldParse(TourShape, 0, m, path, isEmail).status == Valid <==> IsTourName(Lookup(m, "name"))
    ensures FieldParse(TourShape, 1, m, path, isEmail).status == Valid <==>
      Absent(Lookup(m, "slug")) || Lookup(m, "slug").Str?
    ensures FieldParse(TourShape, 2, m, path, isEmail).status == Valid <==> Lookup(m, "duration").Num?
    ensures FieldParse(TourShape, 3, m, path, isEmail).status == Valid <==> Lookup(m, "maxGroupSize").Num?
    ensures FieldParse(TourShape, 4, m, path, isEmail).status == Valid <==>
      Lookup(m, "difficulty").Str? && Lookup(m, "difficulty").s in Difficulties
  {
    var t := TourShape;
    assert FieldParse(t, 0, m, path, isEmail).status == Valid <==> IsTourName(Lookup(m, "name")) by {
      TourNameRule(Lookup(m, "name"), path + [Key("name")], isEmail);
    }
    PlainStringRule(None, [], Lookup(m, "slug"), path + [Key("slug")], isEmail);
    assert FieldParse(t, 4, m, path, isEmail).status == Valid <==>
      Lookup(m, "difficulty").Str? && Lookup(m, "difficulty").s in Difficulties by {
      DifficultyRule(Lookup(m, "difficulty"), path + [Key("difficulty")], isEmail);
    }
  }

  /** The rating and price fields of the tour shape against their own rules. */
  lemma TourPriceFieldRules(m: map<string, JsValue>, path: seq<PathItem>, isEmail: string -> bool)
    ensures |TourShape| == 16
    ensures FieldParse(TourShape, 5, m, path, isEmail).status == Valid <==>
      Absent(Lookup(m, "ratingsAverage")) ||
      (Lookup(m, "ratingsAverage").Num? && 1.0 <= Lookup(m, "ratingsAverage").n <= 5.0)
    ensures FieldParse(TourShape, 6, m, path, isEmail).status == Valid <==>
      Absent(Lookup(m, "ratingsQuantity")) || Lookup(m, "ratingsQuantity").Num?
    ensures FieldParse(TourShape, 7, m, path, isEmail).status == Valid <==> Lookup(m, "price").Num?
    ensures FieldParse(TourShape, 8, m, path, isEmail).status == Valid <==>
      Absent(Lookup(m, "priceDiscount")) || Lookup(m, "priceDiscount").Num?
  {
    TourShapePriceEntries();
    RatingsAverageRule(Lookup(m, "ratingsAverage"), path + [Key("ratingsAverage")], isEmail);
    PlainNumberRule(Lookup(m, "ratingsQuantity"), path + [Key("ratingsQuantity")], isEmail);
    PlainNumberRule(Lookup(m, "price"), path + [Key("price")], isEmail);
    PlainNumberRule(Lookup(m, "priceDiscount"), path + [Key("priceDiscount")], isEmail);
  }

  /** The text fields of the tour shape against their own rules. */
  lemma TourTextFieldRules(m: map<string, JsValue>, path: seq<PathItem>, isEmail: string -> bool)
    ensures |TourShape| == 16
    ensures FieldParse(TourShape, 9, m, path, isEmail).status == Valid <==> Lookup(m, "summary").Str?
    ensures FieldParse(TourShape, 10, m, path, isEmail).status == Valid <==>
      Absent(Lookup(m, "description")) || Lookup(m, "description").Str?
    ensures FieldParse(TourShape, 11, m, path, isEmail).status == Valid <==> Lookup(m, "imageCover").Str?
  {
    PlainStringRule(Some("A tour must have a summary"), [Trim], Lookup(m, "summary"), path + [Key("summary")], isEmail);
    PlainStringRule(None, [Trim], Lookup(m, "description"), path + [Key("description")], isEmail);
    PlainStringRule(Some("A tour must have a cover image"), [], Lookup(m, "imageCover"), path + [Key("imageCover")], isEmail);
  }

  /** The list, date and flag fields of the tour shape against their own rules. */
  lemma TourExtraFieldRules(m: map<string, JsValue>, path: seq<PathItem>, isEmail: string -> bool)
    ensures |TourShape| == 16
    ensures FieldParse(TourShape, 12, m, path, isEmail).status == Valid <==>
      Absent(Lookup(m, "images")) || IsStringList(Lookup(m, "images"))
    ensures FieldParse(TourShape, 13, m, path, isEmail).status == Valid <==>
      Absent(Lookup(m, "createdAt")) || Lookup(m, "createdAt").Date?
    ensures FieldParse(TourShape, 14, m, path, isEmail).status == Valid <==>
      Absent(Lookup(m, "startDates")) || IsDateList(Lookup(m, "startDates"))
    ensures FieldParse(TourShape, 15, m, path, isEmail).status == Valid <==>
      Absent(Lookup(m, "secretTour")) || Lookup(m, "secretTour").Bool?
  {
    var t := TourShape;
    assert FieldParse(t, 12, m, path, isEmail).status == Valid <==>
      Absent(Lookup(m, "images")) || IsStringList(Lookup(m, "images")) by {
      ImagesRule(Lookup(m, "images"), path + [Key("images")], isEmail);
    }
    assert FieldParse(t, 14, m, path, isEmail).status == Valid <==>
      Absent(Lookup(m, "startDates")) || IsDateList(Lookup(m, "startDates")) by {
      StartDatesRule(Lookup(m, "startDates"), path + [Key("startDates")], isEmail);
    }
  }

  lemma TourHeadValidRange(m: map<string, JsValue>, path: seq<PathItem>, isEmail: string -> bool)
    ensures TourHeadValid(m) <==> FieldsValidIn(m, path, isEmail, 0, 5)
  {
    TourHeadFieldRules(m, path, isEmail);
    if TourHeadValid(m) {
      forall k | 0 <= k < 5
        ensures FieldParse(TourShape, k, m, path, isEmail).status == Valid
      {
        assert k == 0 || k == 1 || k == 2 || k == 3 || k == 4;
      }
    }
  }

  lemma TourPricesValidRange(m: map<string, JsValue>, path: seq<PathItem>, isEmail: string -> bool)
    ensures TourPricesValid(m) <==> FieldsValidIn(m, path, isEmail, 5, 9)
  {
    TourPriceFieldRules(m, path, isEmail);
    if TourPricesValid(m) {
      forall k | 5 <= k < 9
        ensures FieldParse(TourShape, k, m, path, isEmail).status == Valid
      {
        assert k == 5 || k == 6 || k == 7 || k == 8;
      }
    }
  }

  lemma TourTextValidRange(m: map<string, JsValue>, path: seq<PathItem>, isEmail: string -> bool)
    ensures TourTextValid(m) <==> FieldsValidIn(m, path, isEmail, 9, 12)
  {
    TourTextFieldRules(m, path, isEmail);
    if TourTextValid(m) {
      forall k | 9 <= k < 12
        ensures FieldParse(TourShape, k, m, path, isEmail).status == Valid
      {
        assert k == 9 || k == 10 || k == 11;
      }
    }
  }

  lemma TourExtrasValidRange(m: map<string, JsValue>, path: seq<PathItem>, isEmail: string -> bool)
    ensures TourExtrasValid(m) <==> FieldsValidIn(m, path, isEmail, 12, 16)
  {
    TourExtraFieldRules(m, path, isEmail);
    if TourExtrasValid(m) {
      forall k | 12 <= k < 16
        ensures FieldParse(TourShape, k, m, path, isEmail).status == Valid
      {
        assert k == 12 || k == 13 || k == 14 || k == 15;
      }
    }
  }

  /** The tour object parses cleanly exactly when each of its sixteen fields does. */
  lemma TourObjectEachValid(m: map<string, JsValue>, path: seq<PathItem>, isEmail: string -> bool)
    ensures Parse(BasicTourSchema, Obj(m), path, isEmail).status == Valid <==> FieldsValidIn(m, path, isEmail, 0, 16)
  {
    FieldsValidIffEachValid(BasicTourSchema, 0, m, path, isEmail);
  }

  /** The tour object (before the price refinement) is valid exactly when every
      field is. */
  lemma TourObjectValid(m: map<string, JsValue>, path: seq<PathItem>, isEmail: string -> bool)
    ensures Parse(BasicTourSchema, Obj(m), path, isEmail).status == Valid <==> TourFieldsValid(m)
  {
    TourObjectEachValid(m, path, isEmail);
    TourHeadValidRange(m, path, isEmail);
    TourPricesValidRange(m, path, isEmail);
    TourTextValidRange(m, path, isEmail);
    TourExtrasValidRange(m, path, isEmail);
    assert FieldsValidIn(m, path, isEmail, 0, 16) <==>
      FieldsValidIn(m, path, isEmail, 0, 5) && FieldsValidIn(m, path, isEmail, 5, 9) &&
      FieldsValidIn(m, path, isEmail, 9, 12) && FieldsValidIn(m, path, isEmail, 12, 16);
  }

  /** Where each required field sits in the tour shape: its schema refuses a
      missing value with that field's `required_error`. */
  lemma RequiredFieldAt(key: string, path: seq<PathItem>, isEmail: string -> bool) returns (k: nat)
    requires key in RequiredMessages
    ensures k < |TourShape| && TourShape[k].key == key
    ensures Parse(TourShape[k].schema, Undefined, path, isEmail) == Abort(InvalidType, path, Some(RequiredMessages[key]))
  {
    k := if key == "name" then 0 else if key == "duration" then 2 else if key == "maxGroupSize" then 3
         else if key == "difficulty" then 4 else if key == "price" then 7 else if key == "summary" then 9
         else 11;
  }

  /** A tour body that leaves out one of the seven required fields is refused:
      the object aborts, and among its issues is the missing field's own
      `required_error`; the same holds for the refined and the intended schema. */
  lemma MissingRequiredTourField(m: map<string, JsValue>, isEmail: string -> bool, key: string)
    requires key in RequiredMessages && Lookup(m, key).Undefined?
    ensures var missing := Issue(InvalidType, [Key(key)], Some(RequiredMessages[key]));
      Parse(BasicTourSchema, Obj(m), [], isEmail).status == Aborted &&
      missing in Parse(BasicTourSchema, Obj(m), [], isEmail).issues &&
      SafeParse(TourSchema, Obj(m), isEmail).Failure? &&
      missing in SafeParse(TourSchema, Obj(m), isEmail).issues &&
      SafeParse(IntendedTourSchema, Obj(m), isEmail).Failure? &&
      missing in SafeParse(IntendedTourSchema, Obj(m), isEmail).issues
  {
    var root: seq<PathItem> := [];
    assert root + [Key(key)] == [Key(key)];
    var k := RequiredFieldAt(key, [Key(key)], isEmail);
    var field := FieldParse(TourShape, k, m, root, isEmail);
    var missing := Issue(InvalidType, [Key(key)], Some(RequiredMessages[key]));
    FieldsAbortIffOneAborts(BasicTourSchema, 0, m, root, isEmail);
    FieldIssuesIncluded(BasicTourSchema, 0, m, root, isEmail, k);
    assert missing in field.issues;
  }

  // ---------------------------------------------------------------------------
  // Where the price fields sit

  lemma PriceKeysUnique()
    ensures |TourShape| == 16
    ensures TourShape[7].key == "price" && KeyUniqueAt(TourShape, 7)
    ensures TourShape[8].key == "priceDiscount" && KeyUniqueAt(TourShape, 8)
  {
  }

  lemma DefaultedKeysUnique()
    ensures |TourShape| == 16
    ensures TourShape[5].key == "ratingsAverage" && KeyUniqueAt(TourShape, 5)
    ensures TourShape[6].key == "ratingsQuantity" && KeyUniqueAt(TourShape, 6)
    ensures TourShape[15].key == "secretTour" && KeyUniqueAt(TourShape, 15)
  {
  }

  /** Every field of the update shape is optional, and none is `createdAt`. */
  lemma UpdateShapeOptional()
    ensures forall j :: 0 <= j < |UpdateTourShape| ==> UpdateTourShape[j].schema.ZOptional?
    ensures forall j :: 0 <= j < |UpdateTourShape| ==> UpdateTourShape[j].key != "createdAt"
  {
    var omitted := Omit(TourShape, {"createdAt"});
    OmitDropsKeys(TourShape, {"createdAt"});
    assert forall j :: 0 <= j < |UpdateTourShape| ==> UpdateTourShape[j].key == omitted[j].key;
  }

  /** Unless the tour object aborts, `price` and `priceDiscount` come out as given. */
  lemma TourPrices(m: map<string, JsValue>, isEmail: string -> bool)
    requires Parse(BasicTourSchema, Obj(m), [], isEmail).status != Aborted
    ensures var out := Parse(BasicTourSchema, Obj(m), [], isEmail).value;
      Lookup(m, "price").Num? && Get(out, "price") == Lookup(m, "price") &&
      (Lookup(m, "priceDiscount").Undefined? || Lookup(m, "priceDiscount").Num?) &&
      Get(out, "priceDiscount") == Lookup(m, "priceDiscount")
  {
    PriceKeysUnique();
    ObjectField(TourShape, m, [], isEmail, 7);
    ObjectField(TourShape, m, [], isEmail, 8);
    var price := Lookup(m, "price");
    var discount := Lookup(m, "priceDiscount");
    if price.Num? {
      assert Num(price.n) == price;
    }
    if discount.Num? {
      assert Num(discount.n) == discount;
    }
  }

  // ---------------------------------------------------------------------------
  // The refinement as written

  /** A tour body without `priceDiscount` is never accepted: the comparison with
      undefined is false. When every field is otherwise valid, the discount
      message is the only issue. */
  lemma TourWithoutDiscountRejected(m: map<string, JsValue>, isEmail: string -> bool)
    requires Lookup(m, "priceDiscount").Undefined?
    ensures SafeParse(TourSchema, Obj(m), isEmail).Failure?
    ensures Parse(BasicTourSchema, Obj(m), [], isEmail).status == Valid ==>
      SafeParse(TourSchema, Obj(m), isEmail) == Failure([Issue(Custom, [Key("priceDiscount")], Some(DiscountMessage))])
    ensures TourFieldsValid(m) ==>
      SafeParse(TourSchema, Obj(m), isEmail) == Failure([Issue(Custom, [Key("priceDiscount")], Some(DiscountMessage))])
  {
    TourObjectValid(m, [], isEmail);
    var inner := Parse(BasicTourSchema, Obj(m), [], isEmail);
    if inner.status != Aborted {
      TourPrices(m, isEmail);
      assert !PriceAboveDiscount(inner.value);
      ValidIffNoIssues(BasicTourSchema, Obj(m), [], isEmail);
      var root: seq<PathItem> := [];
      assert root + DiscountPath == [Key("priceDiscount")];
    }
  }

  /** As written, a full tour is accepted exactly when its fields are valid and
      it carries a discount below the price. */
  lemma TourAccepts(m: map<string, JsValue>, isEmail: string -> bool)
    ensures SafeParse(TourSchema, Obj(m), isEmail).Success? <==>
      TourFieldsValid(m) && GreaterThan(Lookup(m, "price"), Lookup(m, "priceDiscount"))
  {
    TourObjectValid(m, [], isEmail);
    if Parse(BasicTourSchema, Obj(m), [], isEmail).status != Aborted {
      TourPrices(m, isEmail);
    }
  }

  /** An update body that leaves out `price` or `priceDiscount` is never accepted. */
  lemma UpdateWithoutBothPricesRejected(m: map<string, JsValue>, isEmail: string -> bool)
    requires Lookup(m, "price").Undefined? || Lookup(m, "priceDiscount").Undefined?
    ensures SafeParse(UpdateTourSchema, Obj(m), isEmail).Failure?
  {
    var inner := Parse(ZObject(UpdateTourShape), Obj(m), [], isEmail);
    if inner.status != Aborted {
      UpdateShapeOptional();
      if Lookup(m, "price").Undefined? {
        ObjectMissingOptional(UpdateTourShape, m, [], isEmail, "price");
      } else {
        ObjectMissingOptional(UpdateTourShape, m, [], isEmail, "priceDiscount");
      }
      assert !PriceAboveDiscount(inner.value);
    }
  }

  /** The empty update — change nothing — is refused with the discount message. */
  lemma EmptyUpdateRejected(isEmail: string -> bool)
    ensures SafeParse(UpdateTourSchema, Obj(map[]), isEmail) ==
      Failure([Issue(Custom, [Key("priceDiscount")], Some(DiscountMessage))])
  {
    PartialAcceptsEmpty(Omit(TourShape, {"createdAt"}), 0, [], isEmail);
    assert Parse(ZObject(UpdateTourShape), Obj(map[]), [], isEmail) == Parsed(Valid, Obj(map[]), []);
    assert !PriceAboveDiscount(Obj(map[]));
    var root: seq<PathItem> := [];
    assert root + DiscountPath == [Key("priceDiscount")];
  }

  // ---------------------------------------------------------------------------
  // The refinement as intended

  /** A full tour is accepted exactly when its fields are valid and it has no
      discount or a discount below the price. */
  lemma IntendedTourAccepts(m: map<string, JsValue>, isEmail: string -> bool)
    ensures SafeParse(IntendedTourSchema, Obj(m), isEmail).Success? <==>
      Parse(BasicTourSchema, Obj(m), [], isEmail).status == Valid &&
      (Lookup(m, "priceDiscount").Undefined? || GreaterThan(Lookup(m, "price"), Lookup(m, "priceDiscount")))
    ensures SafeParse(IntendedTourSchema, Obj(m), isEmail).Success? <==>
      TourFieldsValid(m) &&
      (Lookup(m, "priceDiscount").Undefined? || GreaterThan(Lookup(m, "price"), Lookup(m, "priceDiscount")))
  {
    TourObjectValid(m, [], isEmail);
    if Parse(BasicTourSchema, Obj(m), [], isEmail).status != Aborted {
      TourPrices(m, isEmail);
    }
  }

  /** Under the intended comparison an update may leave out the discount: it is
      then accepted exactly when its fields are valid; the empty update is
      accepted and changes nothing. */
  lemma IntendedUpdateWithoutDiscount(m: map<string, JsValue>, isEmail: string -> bool)
    requires Lookup(m, "priceDiscount").Undefined?
    ensures SafeParse(IntendedUpdateTourSchema, Obj(m), isEmail).Success? <==>
      Parse(ZObject(UpdateTourShape), Obj(m), [], isEmail).status == Valid
  {
    if Parse(ZObject(UpdateTourShape), Obj(m), [], isEmail).status != Aborted {
      UpdateShapeOptional();
      ObjectMissingOptional(UpdateTourShape, m, [], isEmail, "priceDiscount");
    }
  }

  lemma IntendedEmptyUpdateAccepted(isEmail: string -> bool)
    ensures SafeParse(IntendedUpdateTourSchema, Obj(map[]), isEmail) == Success(Obj(map[]))
  {
    PartialAcceptsEmpty(Omit(TourShape, {"createdAt"}), 0, [], isEmail);
    assert Parse(ZObject(UpdateTourShape), Obj(map[]), [], isEmail) == Parsed(Valid, Obj(map[]), []);
    assert DiscountBelowPrice(Obj(map[]));
  }

  // ---------------------------------------------------------------------------
  // Defaults

  /** A full tour gets the defaults for what it leaves out: an average of 4.5,
      no ratings, not secret. */
  lemma TourDefaults(m: map<string, JsValue>, isEmail: string -> bool)
    requires Parse(BasicTourSchema, Obj(m), [], isEmail).status != Aborted
    ensures var out := Parse(BasicTourSchema, Obj(m), [], isEmail).value;
      (Lookup(m, "ratingsAverage").Undefined? ==> Get(out, "ratingsAverage") == Num(4.5)) &&
      (Lookup(m, "ratingsQuantity").Undefined? ==> Get(out, "ratingsQuantity") == Num(0.0)) &&
      (Lookup(m, "secretTour").Undefined? ==> Get(out, "secretTour") == Bool(false))
  {
    DefaultedKeysUnique();
    ObjectField(TourShape, m, [], isEmail, 5);
    ObjectField(TourShape, m, [], isEmail, 6);
    ObjectField(TourShape, m, [], isEmail, 15);
  }

  /** An update fills in no defaults, and never carries `createdAt`. */
  lemma UpdateAddsNoDefaults(m: map<string, JsValue>, isEmail: string -> bool)
    requires Parse(ZObject(UpdateTourShape), Obj(m), [], isEmail).status != Aborted
    ensures var out := Parse(ZObject(UpdateTourShape), Obj(m), [], isEmail).value;
      (Lookup(m, "ratingsAverage").Undefined? ==> Get(out, "ratingsAverage") == Undefined) &&
      (Lookup(m, "ratingsQuantity").Undefined? ==> Get(out, "ratingsQuantity") == Undefined) &&
      (Lookup(m, "secretTour").Undefined? ==> Get(out, "secretTour") == Undefined) &&
      out.Obj? && "createdAt" !in out.fields
  {
    UpdateShapeOptional();
    if Lookup(m, "ratingsAverage").Undefined? {
      ObjectMissingOptional(UpdateTourShape, m, [], isEmail, "ratingsAverage");
    }
    if Lookup(m, "ratingsQuantity").Undefined? {
      ObjectMissingOptional(UpdateTourShape, m, [], isEmail, "ratingsQuantity");
    }
    if Lookup(m, "secretTour").Undefined? {
      ObjectMissingOptional(UpdateTourShape, m, [], isEmail, "secretTour");
    }
    ObjectStrips(UpdateTourShape, m, [], isEmail);
  }
}
