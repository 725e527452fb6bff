/**
  Concrete drafts and a session, with catalogue values (products, templates) as
  the form offers them.
 */
module Scenarios {
  import opened Types
  import Bank
  import Commit
  import OfferForm
  import App
  import Dates
  import JsString

  function Draft(fromDate: string, toDate: string, products: seq<string>, depth: string): OfferConfig
  {
    Commit.InitialConfig().(duration := OfferDuration(fromDate, toDate), products := products, discountDepth := depth)
  }

  lemma ParseExamples()
    ensures Dates.Parse("2025-05-01") == Some(Dates.Date(2025, 5, 1))
    ensures Dates.Parse("2025-05-10") == Some(Dates.Date(2025, 5, 10))
  {
  }

  /** An end date before the start date is refused. */
  lemma ToBeforeFromExample()
    ensures Commit.Validate(Draft("2025-05-10", "2025-05-01", ["Classic Burger"], "50% off")) == Some(Commit.ToBeforeFrom)
  {
    ParseExamples();
  }

  /** Editing the dates one at a time can leave the end before the start; only the commit notices. */
  lemma InvertedDatesReachable()
    ensures var c := OfferForm.DateChange(
              OfferForm.DateChange(Commit.InitialConfig(), OfferForm.FromDate, "2025-05-10"),
              OfferForm.ToDate, "2025-05-01");
      Commit.ToEarlierThanFrom(c.duration)
  {
  }

  /** A draft with every condition met passes. */
  lemma AcceptedExample()
    ensures Commit.Validate(Draft("2025-05-01", "2025-05-10", ["Classic Burger"], "50% off")) == None
  {
    ParseExamples();
  }

  /** No product selected: refused with the products error. */
  lemma NoProductRefused()
    ensures Commit.Validate(Draft("2025-05-01", "2025-05-10", [], "50% off")) == Some(Commit.NoProducts)
  {
  }

  /** A discount depth of one space: refused with the depth error. */
  lemma SpaceDepthRefused()
    ensures Commit.Validate(Draft("2025-05-01", "2025-05-10", ["Classic Burger"], " ")) == Some(Commit.NoDiscountDepth)
  {
  }

  /** An unset end date: refused with the missing-dates error. */
  lemma UnsetEndDateRefused()
    ensures Commit.Validate(Draft("2025-05-01", "", ["Classic Burger"], "50% off")) == Some(Commit.MissingDates)
  {
  }

  /** The Buy-One-Get-One draft over fries and soda. */
  function BogoDraft(): OfferConfig
  {
    Draft("2025-05-01", "2025-05-10", ["Fries (Large)", "Soda (Large)"], "Free soda").(template := Bogo)
  }

  lemma BogoDraftAccepted()
    ensures Commit.Validate(BogoDraft()) == None
  {
    ParseExamples();
  }

  /** Two products give the " & more" name. */
  lemma BogoName()
    ensures Commit.MakeName(BogoDraft()) == "Buy One Get One Free for Fries (Large) & more"
  {
  }

  /** The form edits of a user who fills in the Buy-One-Get-One offer, in order. */
  function FormSteps(): OfferConfig
  {
    var c0 := Commit.InitialConfig();
    var c1 := OfferForm.InputChange(c0, OfferForm.TemplateInput(Bogo));
    var c2 := OfferForm.DateChange(c1, OfferForm.FromDate, "2025-05-01");
    var c3 := OfferForm.DateChange(c2, OfferForm.ToDate, "2025-05-10");
    var c4 := OfferForm.MultiSelectChange(c3, OfferForm.ProductChoice("Fries (Large)"));
    var c5 := OfferForm.MultiSelectChange(c4, OfferForm.ProductChoice("Soda (Large)"));
    OfferForm.InputChange(c5, OfferForm.DiscountDepthInput("Free soda"))
  }

  /** Those edits build the Buy-One-Get-One draft, products in click order. */
  lemma FormStepsBuildBogoDraft()
    ensures FormSteps() == BogoDraft()
  {
    assert "Soda (Large)" !in ["Fries (Large)"];
  }

  /** Filling in the form field by field, through the application's handlers. */
  method FillDraft() returns (app: App.OfferApp)
    ensures fresh(app) && app.Valid() && app.bank == [] && app.config == BogoDraft()
  {
    app := new App.OfferApp(None);
    app.InputChange(OfferForm.TemplateInput(Bogo));
    app.DateChange(OfferForm.FromDate, "2025-05-01");
    app.DateChange(OfferForm.ToDate, "2025-05-10");
    app.MultiSelectChange(OfferForm.ProductChoice("Fries (Large)"));
    app.MultiSelectChange(OfferForm.ProductChoice("Soda (Large)"));
    app.InputChange(OfferForm.DiscountDepthInput("Free soda"));
    assert app.config == FormSteps();
    FormStepsBuildBogoDraft();
  }

  /** Committing the filled-in draft banks one inactive offer built from it and resets the draft. */
  method CommitDraft() returns (app: App.OfferApp)
    ensures fresh(app) && app.Valid()
    ensures app.bank == [Commit.BuildOffer(BogoDraft(), "manual-1")]
    ensures app.config == Commit.InitialConfig() && app.activeTab == BankTab
  {
    app := FillDraft();
    BogoDraftAccepted();
    app.AddToBankManually("manual-1");
  }

  /** Committing the reset draft is refused with the missing-dates text and leaves the bank alone. */
  method CommitResetDraft(app: App.OfferApp)
    requires app.Valid() && app.config == Commit.InitialConfig()
    modifies app
    ensures app.Valid() && app.bank == old(app.bank)
    ensures app.error == Some("Please set both 'From Date' and 'To Date' for the offer.")
  {
    Commit.InitialConfigRefused();
    app.AddToBankManually("manual-2");
  }

  /** A session: commit the draft, try to commit the reset draft, roll the offer out, toggle it back, delete it. */
  method Session()
  {
    var app := CommitDraft();
    BogoName();
    assert app.bank[0].name == "Buy One Get One Free for Fries (Large) & more";
    CommitResetDraft(app);
    app.RolloutOffer("manual-1");
    assert app.bank[0].isActive && app.activeTab == ActiveTab;
    app.ToggleActive("manual-1");
    assert !app.bank[0].isActive && app.activeTab == BankTab;
    app.DeleteOffer("manual-1");
    assert app.bank == [];
  }
}
