/** The root component: the learn/edit view mode and the category the learner has opened. */
module App {
  import opened Records
  import opened DbService

  datatype ViewMode = Learn | Edit

  /** The mode toggleViewMode switches to. */
  function Toggled(m: ViewMode): (r: ViewMode)
    ensures r != m
    ensures m == Learn <==> r == Edit
  {
    if m == Learn then Edit else Learn
  }

  /** Toggling twice restores the mode. */
  lemma ToggleTwiceRestores(m: ViewMode)
    ensures Toggled(Toggled(m)) == m
  {
  }

  class AppComponent {
    const dbService: DbService
    var viewMode: ViewMode
    var selectedCategory: Option<Category>

    /** The component starts in learn mode with nothing selected. */
    constructor (service: DbService)
      ensures dbService == service && viewMode == Learn && selectedCategory == None
    {
      dbService := service;
      viewMode := Learn;
      selectedCategory := None;
    }

    /** isDbReady: the service's readiness signal, read through. */
    function IsDbReady(): bool
      reads dbService
    {
      dbService.dbReady
    }

    method SelectCategory(category: Category)
      modifies this
      ensures selectedCategory == Some(category) && viewMode == old(viewMode)
    {
      selectedCategory := Some(category);
    }

    method GoBackToCategories()
      modifies this
      ensures selectedCategory == None && viewMode == old(viewMode)
    {
      selectedCategory := None;
    }

    /** toggleViewMode: switch learn and edit, and always drop the selection. */
    method ToggleViewMode()
      modifies this
      ensures viewMode == Toggled(old(viewMode)) && selectedCategory == None
    {
      viewMode := Toggled(viewMode);
      selectedCategory := None;
    }
  }
}
