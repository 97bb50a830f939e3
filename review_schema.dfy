/** The request-body schemas for reviews: the full review, and the create body
    without `createdAt`. A review names its tour (and optionally its author)
    by an id string or by an instance of `mongoose.Schema.ObjectId`. */
module ReviewSchemas {

  import opened Wrappers
  import opened Zod

  const RatingTooLow: string := "The review must be greater than or equal to 1"
  const RatingTooHigh: string := "The review must be less than or equal to 5"
  const NotAnObjectId: string := "Input not instance of ObjectId"

  const RatingSchema: Schema :=
    ZNumber(Some("Please provide a rating"), [AtLeast(1.0, Some(RatingTooLow)), AtMost(5.0, Some(RatingTooHigh))])
  /** `z.instanceof` is taken to report a fatal issue, as recent zod 3 releases do. */
  const TourRefSchema: Schema := ZUnion(ZString(Some("Review must belong to a tour."), []), ZInstanceOf("ObjectId"))
  const UserRefSchema: Schema :=
    ZOptional(ZUnion(ZString(Some("Review must belong to a user."), []), ZInstanceOf("ObjectId")))

  const ReviewShape: seq<Field> := [
    Field("review", ZString(Some("Please provide a review"), [])),
    Field("rating", RatingSchema),
    Field("createdAt", ZOptional(ZDate)),
    Field("tour", TourRefSchema),
    Field("user", UserRefSchema)
  ]

  const BasicReviewSchema: Schema := ZObject(ReviewShape)
  /** The review shape without the creation date. */
  const CreateReviewShape: seq<Field> := Omit(ReviewShape, {"createdAt"})
  const CreateReviewSchema: Schema := ZObject(CreateReviewShape)

  /** A reference: an id string, or an instance of `mongoose.Schema.ObjectId`. */
  predicate IsRef(v: JsValue) {
    v.Str? || v == Instance("ObjectId")
  }

  lemma CreateReviewShapeFields()
    ensures CreateReviewShape == [ReviewShape[0], ReviewShape[1], ReviewShape[3], ReviewShape[4]]
  {
    var s := ReviewShape;
    var k := {"createdAt"};
    OmitStep(s, k, 4);
    assert s[5..] == [];
    OmitStep(s, k, 3);
    OmitStep(s, k, 2);
    OmitStep(s, k, 1);
    OmitStep(s, k, 0);
    assert s[0..] == s;
  }

  /** A rating is a number from 1 to 5; each bound has its own message. */
  lemma RatingRule(v: JsValue, path: seq<PathItem>, isEmail: string -> bool)
    ensures !v.Num? ==>
      Parse(RatingSchema, v, path, isEmail) == Abort(InvalidType, path, TypeErrorMessage(Some("Please provide a rating"), v))
    ensures v.Num? ==>
      Parse(RatingSchema, v, path, isEmail) ==
      Checked(v, (if v.n < 1.0 then [Issue(TooSmall(1.0), path, Some(RatingTooLow))] else []) +
                 (if v.n > 5.0 then [Issue(TooBig(5.0), path, Some(RatingTooHigh))] else []))
  {
    if v.Num? {
      var checks := [AtLeast(1.0, Some(RatingTooLow)), AtMost(5.0, Some(RatingTooHigh))];
      assert NumberChecks(v.n, checks[1..][1..], path) == [];
      assert NumberChecks(v.n, checks[1..], path) ==
        if v.n > 5.0 then [Issue(TooBig(5.0), path, Some(RatingTooHigh))] else [];
    }
  }

  /** A tour reference is accepted as an id string or an instance of `mongoose.Schema.ObjectId`.
      Anything else — a missing tour included — gets a single invalid-union
      issue with zod's default text; "Review must belong to a tour." appears
      only inside it. */
  lemma TourRefRule(v: JsValue, path: seq<PathItem>, isEmail: string -> bool)
    ensures IsRef(v) ==> Parse(TourRefSchema, v, path, isEmail) == Parsed(Valid, v, [])
    ensures !IsRef(v) ==>
      Parse(TourRefSchema, v, path, isEmail) ==
      Abort(InvalidUnion([[Issue(InvalidType, path, TypeErrorMessage(Some("Review must belong to a tour."), v))],
                          [Issue(Custom, path, Some(NotAnObjectId))]]), path, None)
  {
    assert "Input not instance of " + "ObjectId" == NotAnObjectId;
    if v.Str? {
      assert Str(v.s) == v;
    }
  }

  lemma UserRefRule(v: JsValue, path: seq<PathItem>, isEmail: string -> bool)
    ensures v.Undefined? || IsRef(v) <==> Parse(UserRefSchema, v, path, isEmail).status == Valid
  {
    if v.Str? {
      assert Str(v.s) == v;
    }
  }

  /** Each field of the create body, read from `m`, against its own rule. */
  lemma CreateReviewFieldRules(m: map<string, JsValue>, path: seq<PathItem>, isEmail: string -> bool)
    ensures |CreateReviewShape| == 4
    ensures FieldParse(CreateReviewShape, 0, m, path, isEmail).status == Valid <==> Lookup(m, "review").Str?
    ensures FieldParse(CreateReviewShape, 1, m, path, isEmail).status == Valid <==>
      Lookup(m, "rating").Num? && 1.0 <= Lookup(m, "rating").n <= 5.0
    ensures FieldParse(CreateReviewShape, 2, m, path, isEmail).status == Valid <==> IsRef(Lookup(m, "tour"))
    ensures FieldParse(CreateReviewShape, 3, m, path, isEmail).status == Valid <==>
      Lookup(m, "user").Undefined? || IsRef(Lookup(m, "user"))
  {
    CreateReviewShapeFields();
    var u := CreateReviewShape;
    assert FieldParse(u, 1, m, path, isEmail).status == Valid <==>
      Lookup(m, "rating").Num? && 1.0 <= Lookup(m, "rating").n <= 5.0 by {
      RatingRule(Lookup(m, "rating"), path + [Key("rating")], isEmail);
    }
    assert FieldParse(u, 2, m, path, isEmail).status == Valid <==> IsRef(Lookup(m, "tour")) by {
      TourRefRule(Lookup(m, "tour"), path + [Key("tour")], isEmail);
    }
    assert FieldParse(u, 3, m, path, isEmail).status == Valid <==>
      Lookup(m, "user").Undefined? || IsRef(Lookup(m, "user")) by {
      UserRefRule(Lookup(m, "user"), path + [Key("user")], isEmail);
    }
  }

  /** The create body is accepted exactly when the review is a string, the rating
      a number from 1 to 5, the tour a reference and the author, if given, a
      reference. */
  lemma CreateReviewAccepts(m: map<string, JsValue>, isEmail: string -> bool)
    ensures SafeParse(CreateReviewSchema, Obj(m), isEmail).Success? <==>
      Lookup(m, "review").Str? &&
      Lookup(m, "rating").Num? && 1.0 <= Lookup(m, "rating").n <= 5.0 &&
      IsRef(Lookup(m, "tour")) &&
      (Lookup(m, "user").Undefined? || IsRef(Lookup(m, "user")))
  {
    var u := CreateReviewShape;
    var root: seq<PathItem> := [];
    CreateReviewFieldRules(m, root, isEmail);
    FieldsValidIffEachValid(ZObject(u), 0, m, root, isEmail);
    var ok := Lookup(m, "review").Str? &&
      Lookup(m, "rating").Num? && 1.0 <= Lookup(m, "rating").n <= 5.0 &&
      IsRef(Lookup(m, "tour")) &&
      (Lookup(m, "user").Undefined? || IsRef(Lookup(m, "user")));
    if ok {
      forall k | 0 <= k < 4
        ensures FieldParse(u, k, m, root, isEmail).status == Valid
      {
        assert k == 0 || k == 1 || k == 2 || k == 3;
      }
    }
  }

  /** The create body never carries `createdAt`: a date sent in it is dropped,
      while the full schema refuses it, since a JSON body cannot hold a Date. */
  lemma CreatedAtOnlyInFullSchema(m: map<string, JsValue>, isEmail: string -> bool)
    ensures SafeParse(CreateReviewSchema, Obj(m), isEmail).Success? ==>
      var out := SafeParse(CreateReviewSchema, Obj(m), isEmail).data;
      out.Obj? && "createdAt" !in out.fields
    ensures Lookup(m, "createdAt").Str? ==> SafeParse(BasicReviewSchema, Obj(m), isEmail).Failure?
  {
    var u := CreateReviewShape;
    if Parse(ZObject(u), Obj(m), [], isEmail).status != Aborted {
      ObjectStrips(u, m, [], isEmail);
      OmitDropsKeys(ReviewShape, {"createdAt"});
    }
    if Lookup(m, "createdAt").Str? {
      FieldsValidIffEachValid(BasicReviewSchema, 0, m, [], isEmail);
      assert FieldParse(ReviewShape, 2, m, [], isEmail).status == Aborted;
    }
  }

  /** A body without a tour fails with the invalid-union issue under `tour`. */
  lemma MissingTourIsUnionIssue(m: map<string, JsValue>, isEmail: string -> bool)
    requires Lookup(m, "tour").Undefined?
    ensures var r := SafeParse(CreateReviewSchema, Obj(m), isEmail);
      r.Failure? &&
      Issue(InvalidUnion([[Issue(InvalidType, [Key("tour")], Some("Review must belong to a tour."))],
                          [Issue(Custom, [Key("tour")], Some(NotAnObjectId))]]), [Key("tour")], None) in r.issues
  {
    var u := CreateReviewShape;
    var root: seq<PathItem> := [];
    var tour := [Key("tour")];
    var issue := Issue(InvalidUnion([[Issue(InvalidType, tour, Some("Review must belong to a tour."))],
                                     [Issue(Custom, tour, Some(NotAnObjectId))]]), tour, None);
    assert |u| == 4 && u[2].key == "tour" && u[2].schema == TourRefSchema by {
      CreateReviewShapeFields();
    }
    assert root + [Key("tour")] == tour;
    assert FieldParse(u, 2, m, root, isEmail) == Parsed(Aborted, Undefined, [issue]) by {
      TourRefRule(Undefined, tour, isEmail);
    }
    var fields := ParseFields(ZObject(u), 0, m, root, isEmail);
    assert issue in fields.issues by {
      FieldIssuesIncluded(ZObject(u), 0, m, root, isEmail, 2);
    }
    assert fields.status != Valid by {
      FieldsValidIffEachValid(ZObject(u), 0, m, root, isEmail);
    }
    assert Parse(CreateReviewSchema, Obj(m), root, isEmail) == fields;
  }
}
