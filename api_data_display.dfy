/**
 * The remote records panel: case-insensitive search over users and posts,
 * client-side pagination six records to a page, the page and search resets,
 * the prev/next clamps, the post author lookup, and the all-or-nothing
 * outcome of loading both collections.
 */
module ApiDataDisplay {

  import opened Wrappers
  import opened JsArray
  import opened JsString

  datatype Company = Company(name: string)

  datatype Address = Address(city: string, zipcode: string)

  datatype User = User(
    id: int, name: string, username: string, email: string, phone: string, website: string,
    company: Company, address: Address)

  datatype Post = Post(id: int, title: string, body: string, userId: int)

  datatype Tab = Users | Posts

  /** An element of `currentData`: a user on the users tab, a post on the posts tab. */
  datatype Record = UserRecord(user: User) | PostRecord(post: Post)

  const ItemsPerPage: nat := 6

  /** The message of the error thrown when either response is not ok. */
  const FetchFailedMessage: string := "Failed to fetch data"

  function Min(a: int, b: int): int { if a <= b then a else b }

  function Max(a: int, b: int): int { if a >= b then a else b }

  // ----- search -----

  /** The lowercased search term occurs in the lowercased name, email or company name; the empty term matches every user. */
  function UserMatches(user: User, searchTerm: string): (b: bool)
    ensures b <==>
      || (exists i :: OccursAt(ToLowerCase(user.name), ToLowerCase(searchTerm), i))
      || (exists i :: OccursAt(ToLowerCase(user.email), ToLowerCase(searchTerm), i))
      || (exists i :: OccursAt(ToLowerCase(user.company.name), ToLowerCase(searchTerm), i))
    ensures searchTerm == "" ==> b
  {
    var term := ToLowerCase(searchTerm);
    IncludesEmpty(ToLowerCase(user.name));
    || Includes(ToLowerCase(user.name), term)
    || Includes(ToLowerCase(user.email), term)
    || Includes(ToLowerCase(user.company.name), term)
  }

  /** The lowercased search term occurs in the lowercased title or body; the empty term matches every post. */
  function PostMatches(post: Post, searchTerm: string): (b: bool)
    ensures b <==>
      || (exists i :: OccursAt(ToLowerCase(post.title), ToLowerCase(searchTerm), i))
      || (exists i :: OccursAt(ToLowerCase(post.body), ToLowerCase(searchTerm), i))
    ensures searchTerm == "" ==> b
  {
    var term := ToLowerCase(searchTerm);
    IncludesEmpty(ToLowerCase(post.title));
    Includes(ToLowerCase(post.title), term) || Includes(ToLowerCase(post.body), term)
  }

  function UserSearch(searchTerm: string): User -> bool {
    (user: User) => UserMatches(user, searchTerm)
  }

  function PostSearch(searchTerm: string): Post -> bool {
    (post: Post) => PostMatches(post, searchTerm)
  }

  /** `filteredUsers`: in their order, exactly the users the term matches. */
  function FilterUsers(users: seq<User>, searchTerm: string): (r: seq<User>)
    ensures IsSubsequence(r, users)
    ensures forall u: User :: multiset(r)[u] == if UserMatches(u, searchTerm) then multiset(users)[u] else 0
  {
    Filter(users, UserSearch(searchTerm))
  }

  /** `filteredPosts`: in their order, exactly the posts the term matches. */
  function FilterPosts(posts: seq<Post>, searchTerm: string): (r: seq<Post>)
    ensures IsSubsequence(r, posts)
    ensures forall p: Post :: multiset(r)[p] == if PostMatches(p, searchTerm) then multiset(posts)[p] else 0
  {
    Filter(posts, PostSearch(searchTerm))
  }

  /** An empty search term matches every record. */
  lemma EmptySearchKeepsAll(users: seq<User>, posts: seq<Post>)
    ensures FilterUsers(users, "") == users
    ensures FilterPosts(posts, "") == posts
  {
    forall u: User ensures UserMatches(u, "") {
      IncludesEmpty(ToLowerCase(u.name));
    }
    forall p: Post ensures PostMatches(p, "") {
      IncludesEmpty(ToLowerCase(p.title));
    }
    FilterKeepsAll(users, UserSearch(""));
    FilterKeepsAll(posts, PostSearch(""));
  }

  /** Search terms that differ only in letter case select the same records. */
  lemma SearchIgnoresTermCase(users: seq<User>, posts: seq<Post>, a: string, b: string)
    requires ToLowerCase(a) == ToLowerCase(b)
    ensures FilterUsers(users, a) == FilterUsers(users, b)
    ensures FilterPosts(posts, a) == FilterPosts(posts, b)
  {
    FilterCongruent(users, UserSearch(a), UserSearch(b));
    FilterCongruent(posts, PostSearch(a), PostSearch(b));
  }

  /** A user named "Alice Smith" is found by the term "alice" and by "ALICE". */
  lemma AliceIsFound(alice: User)
    requires alice.name == "Alice Smith"
    ensures FilterUsers([alice], "alice") == [alice]
    ensures FilterUsers([alice], "ALICE") == [alice]
  {
    assert ToLowerCase("Alice Smith") == "alice smith";
    assert ToLowerCase("ALICE") == "alice";
    assert "alice" <= "alice smith";
    assert UserMatches(alice, "alice");
    FilterKeepsAll([alice], UserSearch("alice"));
    SearchIgnoresTermCase([alice], [], "alice", "ALICE");
  }

  // ----- pagination -----

  /** `totalPages = Math.ceil(count / itemsPerPage)`: the fewest pages of six that hold `count` records. */
  function PageCount(count: nat): (pages: nat)
    ensures count <= pages * ItemsPerPage
    ensures pages > 0 ==> (pages - 1) * ItemsPerPage < count
  {
    (count + ItemsPerPage - 1) / ItemsPerPage
  }

  /** `startIndex` for a 1-based page number. */
  function StartIndex(page: int): int {
    (page - 1) * ItemsPerPage
  }

  /** `currentItems = currentData.slice(startIndex, startIndex + itemsPerPage)`. */
  function PageItems<T>(data: seq<T>, page: int): (items: seq<T>)
    ensures |items| <= ItemsPerPage
  {
    Slice(data, StartIndex(page), StartIndex(page) + ItemsPerPage)
  }

  /** A page between 1 and the page count holds the next one to six records, in order. */
  lemma PageWithinRange<T>(data: seq<T>, page: int)
    requires 1 <= page <= PageCount(|data|)
    ensures PageItems(data, page) == data[(page - 1) * ItemsPerPage..Min(page * ItemsPerPage, |data|)]
    ensures 0 < |PageItems(data, page)| <= ItemsPerPage
  {
  }

  /** A page after the last one is empty. */
  lemma PageBeyondRange<T>(data: seq<T>, page: int)
    requires page > PageCount(|data|)
    ensures PageItems(data, page) == []
  {
  }

  /** Pages 1 to `k` of `data`, one after the other. */
  function Pages<T>(data: seq<T>, k: nat): seq<T> {
    if k == 0 then [] else Pages(data, k - 1) + PageItems(data, k)
  }

  lemma {:induction false} PagesArePrefix<T>(data: seq<T>, k: nat)
    requires k <= PageCount(|data|)
    ensures Pages(data, k) == data[..Min(k * ItemsPerPage, |data|)]
  {
    if k > 0 {
      PagesArePrefix(data, k - 1);
      PageWithinRange(data, k);
      assert data[..Min(k * ItemsPerPage, |data|)]
        == data[..(k - 1) * ItemsPerPage] + data[(k - 1) * ItemsPerPage..Min(k * ItemsPerPage, |data|)];
    }
  }

  /** Concatenating every page in order gives back the whole list: nothing is left out and nothing is shown twice. */
  lemma PagesRebuildData<T>(data: seq<T>)
    ensures Pages(data, PageCount(|data|)) == data
  {
    PagesArePrefix(data, PageCount(|data|));
  }

  // ----- author lookup -----

  /** `PostCard`'s author: the first user whose id is the post's `userId`, if any. */
  function Author(post: Post, users: seq<User>): (author: Option<User>)
    ensures author.None? <==> forall i :: 0 <= i < |users| ==> users[i].id != post.userId
    ensures author.Some? ==> author.value.id == post.userId
    ensures author.Some? ==>
      exists i :: 0 <= i < |users| && users[i] == author.value && (forall j :: 0 <= j < i ==> users[j].id != post.userId)
  {
    Find(users, (user: User) => user.id == post.userId)
  }

  // ----- the component -----

  /** The panel's state, field for field the component's `useState` hooks. */
  class Component {
    var users: seq<User>
    var posts: seq<Post>
    var loading: bool
    var error: Option<string>
    var searchTerm: string
    var currentPage: int
    var activeTab: Tab

    constructor ()
      ensures users == [] && posts == [] && loading && error == None
      ensures searchTerm == "" && currentPage == 1 && activeTab == Users
    {
      users, posts := [], [];
      loading, error := true, None;
      searchTerm, currentPage, activeTab := "", 1, Users;
    }

    /** `currentData`: the searched records of the active tab. */
    function CurrentData(): (data: seq<Record>)
      reads this
      ensures activeTab == Users ==> |data| == |FilterUsers(users, searchTerm)|
      ensures activeTab == Users ==> forall i :: 0 <= i < |data| ==> data[i] == UserRecord(FilterUsers(users, searchTerm)[i])
      ensures activeTab == Posts ==> |data| == |FilterPosts(posts, searchTerm)|
      ensures activeTab == Posts ==> forall i :: 0 <= i < |data| ==> data[i] == PostRecord(FilterPosts(posts, searchTerm)[i])
    {
      if activeTab == Users then Map(FilterUsers(users, searchTerm), (u: User) => UserRecord(u))
      else Map(FilterPosts(posts, searchTerm), (p: Post) => PostRecord(p))
    }

    /** `totalPages`: the fewest pages of six that hold the records shown. */
    function TotalPages(): (pages: nat)
      reads this
      ensures |CurrentData()| <= pages * ItemsPerPage
      ensures pages > 0 ==> (pages - 1) * ItemsPerPage < |CurrentData()|
    {
      PageCount(|CurrentData()|)
    }

    /** `currentItems`: the current page's records, the next one to six of the records shown; none past the last page. */
    function CurrentItems(): (items: seq<Record>)
      reads this
      ensures |items| <= ItemsPerPage
      ensures 1 <= currentPage <= TotalPages() ==>
        && items == CurrentData()[(currentPage - 1) * ItemsPerPage..Min(currentPage * ItemsPerPage, |CurrentData()|)]
        && items != []
      ensures currentPage > TotalPages() ==> items == []
    {
      var data := CurrentData();
      if 1 <= currentPage <= TotalPages() then
        PageWithinRange(data, currentPage);
        PageItems(data, currentPage)
      else if currentPage > TotalPages() then
        PageBeyondRange(data, currentPage);
        PageItems(data, currentPage)
      else
        PageItems(data, currentPage)
    }

    /** The page is a real one, or 1 when there are no records. */
    ghost predicate PageInRange()
      reads this
    {
      1 <= currentPage <= Max(1, TotalPages())
    }

    /** The start of `fetchData`: loading on, error cleared. */
    method StartFetch()
      modifies this`loading, this`error
      ensures loading && error == None
    {
      loading := true;
      error := None;
    }

    /**
     * The end of `fetchData`, once both responses are in: both collections
     * are taken when both responses are ok; otherwise the error is set and
     * both collections stay as they were. Loading ends either way.
     */
    method FinishFetch(usersOk: bool, postsOk: bool, usersData: seq<User>, postsData: seq<Post>)
      modifies this`users, this`posts, this`loading, this`error
      ensures !loading
      ensures usersOk && postsOk ==> users == usersData && posts == postsData && error == old(error)
      ensures !(usersOk && postsOk) ==> users == old(users) && posts == old(posts) && error == Some(FetchFailedMessage)
    {
      if !usersOk || !postsOk {
        error := Some(FetchFailedMessage);
      } else {
        users := usersData;
        posts := postsData;
      }
      loading := false;
    }

    /** `fetchData` from start to end. */
    method FetchData(usersOk: bool, postsOk: bool, usersData: seq<User>, postsData: seq<Post>)
      modifies this`users, this`posts, this`loading, this`error
      ensures !loading
      ensures usersOk && postsOk ==> users == usersData && posts == postsData && error == None
      ensures !(usersOk && postsOk) ==> users == old(users) && posts == old(posts) && error == Some(FetchFailedMessage)
      ensures old(currentPage) == 1 ==> PageInRange()
    {
      StartFetch();
      FinishFetch(usersOk, postsOk, usersData, postsData);
    }

    /** `handleSearch`: a new term, back to page 1. */
    method HandleSearch(value: string)
      modifies this`searchTerm, this`currentPage
      ensures searchTerm == value && currentPage == 1
      ensures PageInRange()
    {
      searchTerm := value;
      currentPage := 1;
    }

    /** `handleTabChange`: the other tab, page 1, empty search. */
    method HandleTabChange(tab: Tab)
      modifies this`activeTab, this`currentPage, this`searchTerm
      ensures activeTab == tab && currentPage == 1 && searchTerm == ""
      ensures PageInRange()
    {
      activeTab := tab;
      currentPage := 1;
      searchTerm := "";
    }

    /** A numbered page button; the buttons are shown, numbered 1 to the page count, only when there is more than one page. */
    method GoToPage(page: int)
      requires TotalPages() > 1
      requires 1 <= page <= TotalPages()
      modifies this`currentPage
      ensures currentPage == page && PageInRange()
    {
      currentPage := page;
    }

    /** The "previous" button: one page back, never below page 1. */
    method PrevPage()
      requires TotalPages() > 1
      modifies this`currentPage
      ensures currentPage == Max(old(currentPage) - 1, 1)
      ensures currentPage >= 1
      ensures old(PageInRange()) ==> PageInRange()
    {
      currentPage := Max(currentPage - 1, 1);
    }

    /** The "next" button: one page on, never past the last page. */
    method NextPage()
      requires TotalPages() > 1
      modifies this`currentPage
      ensures currentPage == Min(old(currentPage) + 1, TotalPages())
      ensures currentPage <= TotalPages()
      ensures old(currentPage) >= 1 ==> currentPage >= 1
      ensures old(PageInRange()) ==> PageInRange()
    {
      currentPage := Min(currentPage + 1, TotalPages());
    }
  }

  /** Users arrive but the posts request fails: the panel shows the error and none of the users. */
  method PostsFailureScenario(usersData: seq<User>, postsData: seq<Post>) returns (panel: Component)
    ensures panel.error == Some(FetchFailedMessage) && panel.users == [] && panel.posts == [] && !panel.loading
    ensures panel.CurrentData() == [] && panel.TotalPages() == 0
  {
    panel := new Component();
    panel.FetchData(true, false, usersData, postsData);
  }

}
