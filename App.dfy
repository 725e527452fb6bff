/**
  The application component's state (App.tsx): the offer bank, the draft, the
  error shown in the modal, the selected tab, and the value last written to
  storage.  Each handler is a method; the array it installs is computed by the
  functions of `Bank` and `Commit`, the drafts by those of `OfferForm`.
 */
module App {
  import opened Types
  import Bank
  import Commit
  import OfferForm

  /** The bank read at start-up: what storage holds, or the empty bank when it holds nothing. */
  function Load(saved: Option<seq<Offer>>): (bank: seq<Offer>)
    ensures saved == None ==> bank == []
    ensures saved.Some? ==> bank == saved.value
  {
    if saved.Some? then saved.value else []
  }

  class OfferApp {
    var config: OfferConfig
    var bank: seq<Offer>
    var error: Option<string>
    var activeTab: Tab
    /** What the effect on `offerBank` last wrote to storage. */
    var persisted: Option<seq<Offer>>

    /** After every render the effect has written the current bank. */
    ghost predicate Valid()
      reads this
    {
      persisted == Some(bank)
    }

    /** The initial state; `saved` is the stored bank, None when storage holds nothing. */
    constructor (saved: Option<seq<Offer>>)
      ensures Valid()
      ensures bank == Load(saved)
      ensures config == Commit.InitialConfig() && error == None && activeTab == BankTab
    {
      config := Commit.InitialConfig();
      bank := Load(saved);
      error := None;
      activeTab := BankTab;
      persisted := Some(Load(saved));
    }

    /**
      `handleAddToBankManually`, with `freshId` the id the clock and the random
      suffix produce.  A refused commit sets only `error`; an accepted one
      prepends the new inactive offer, resets the draft, clears the error and
      shows the 'bank' tab.
     */
    method AddToBankManually(freshId: string)
      requires Valid()
      modifies this
      ensures Valid()
      ensures Commit.Validate(old(config)).Some? ==>
        error == Some(Commit.Message(Commit.Validate(old(config)).value)) &&
        bank == old(bank) && config == old(config) && activeTab == old(activeTab)
      ensures Commit.Validate(old(config)) == None ==>
        bank == [Commit.BuildOffer(old(config), freshId)] + old(bank) &&
        config == Commit.InitialConfig() && error == None && activeTab == BankTab
      ensures Bank.UniqueIds(old(bank)) && !Bank.HasId(old(bank), freshId) ==> Bank.UniqueIds(bank)
    {
      var failure := Commit.Validate(config);
      if failure.Some? {
        error := Some(Commit.Message(failure.value));
      } else {
        var offer := Commit.BuildOffer(config, freshId);
        if Bank.UniqueIds(bank) && !Bank.HasId(bank, freshId) {
          Bank.PrependFreshKeepsUnique(offer, bank);
        }
        Prepend(offer);
      }
    }

    /** The accepting half of `handleAddToBankManually`: prepend, reset the draft, clear the error, show 'bank'. */
    method Prepend(offer: Offer)
      requires Valid()
      modifies this
      ensures Valid()
      ensures bank == [offer] + old(bank)
      ensures config == Commit.InitialConfig() && error == None && activeTab == BankTab
    {
      error := None;
      bank := [offer] + bank;
      persisted := Some(bank);
      config := Commit.InitialConfig();
      activeTab := BankTab;
    }

    /** `handleRolloutOffer`: activates the offers with `id` and shows the 'active' tab. */
    method RolloutOffer(id: string)
      requires Valid()
      modifies this
      ensures Valid()
      ensures bank == Bank.Rollout(old(bank), id)
      ensures Bank.UniqueIds(old(bank)) ==> Bank.UniqueIds(bank)
      ensures activeTab == ActiveTab
      ensures config == old(config) && error == old(error)
    {
      if Bank.UniqueIds(bank) {
        Bank.MapsKeepUniqueIds(bank, id);
      }
      bank := Bank.Rollout(bank, id);
      persisted := Some(bank);
      activeTab := ActiveTab;
    }

    /**
      `handleToggleActive`: negates the flag of the offers with `id`; the deferred
      tab switches then leave the tab of the last toggled offer's new state, and
      leave the tab alone when no offer has the id.
     */
    method ToggleActive(id: string)
      requires Valid()
      modifies this
      ensures Valid()
      ensures bank == Bank.Toggle(old(bank), id)
      ensures Bank.UniqueIds(old(bank)) ==> Bank.UniqueIds(bank)
      ensures activeTab == (match Bank.ToggleHint(old(bank), id)
                            case Some(t) => t
                            case None => old(activeTab))
      ensures config == old(config) && error == old(error)
    {
      var hint := Bank.ToggleHint(bank, id);
      if Bank.UniqueIds(bank) {
        Bank.MapsKeepUniqueIds(bank, id);
      }
      bank := Bank.Toggle(bank, id);
      persisted := Some(bank);
      if hint.Some? {
        activeTab := hint.value;
      }
    }

    /** `handleDeleteOffer`: drops the offers with `id`. */
    method DeleteOffer(id: string)
      requires Valid()
      modifies this
      ensures Valid()
      ensures bank == Bank.Delete(old(bank), id)
      ensures Bank.UniqueIds(old(bank)) ==> Bank.UniqueIds(bank)
      ensures config == old(config) && error == old(error) && activeTab == old(activeTab)
    {
      if Bank.UniqueIds(bank) {
        Bank.DeleteKeepsUniqueIds(bank, id);
      }
      bank := Bank.Delete(bank, id);
      persisted := Some(bank);
    }

    /** `setConfig` as called by the form's `handleInputChange`. */
    method InputChange(input: OfferForm.ScalarInput)
      requires Valid()
      modifies this`config
      ensures Valid()
      ensures config == OfferForm.InputChange(old(config), input)
    {
      config := OfferForm.InputChange(config, input);
    }

    /** `setConfig` as called by the form's `handleDateChange`. */
    method DateChange(part: OfferForm.DatePart, value: string)
      requires Valid()
      modifies this`config
      ensures Valid()
      ensures config == OfferForm.DateChange(old(config), part, value)
    {
      config := OfferForm.DateChange(config, part, value);
    }

    /** `setConfig` as called by the form's `handleMultiSelectChange`. */
    method MultiSelectChange(choice: OfferForm.ListChoice)
      requires Valid()
      modifies this`config
      ensures Valid()
      ensures config == OfferForm.MultiSelectChange(old(config), choice)
    {
      config := OfferForm.MultiSelectChange(config, choice);
    }
  }
}
