/**
 * The `App` component: its state fields, the load and write-through
 * effects, and the event handlers that change them. Every handler requires
 * the condition under which its control is on screen.
 */
module App {
  import opened Types
  import opened Constants
  import opened Projection
  import opened Store

  /** The one accepted credential pair. */
  const AdminName := "admin"
  const AdminPassword := "admin123"

  /** The session a successful sign-in creates and caches. */
  const AdminUser := User("管理员", true)

  /** Author recorded when no user, or a user with an empty name, is signed in. */
  const OfficeAuthor := "管理处"

  /** The create form's initial and reset category. */
  const DefaultCategory := "健康关爱"

  datatype LoginForm = LoginForm(username: string, password: string)
  datatype NoticeForm = NoticeForm(title: string, content: string, category: string)

  const BlankLogin := LoginForm("", "")
  const BlankNotice := NoticeForm("", "", DefaultCategory)

  /** The form's default category is the first one the category list offers. */
  lemma DefaultCategoryOffered()
    ensures DefaultCategory == DefaultCategories[0]
    ensures DefaultCategory in DefaultCategories
  {
  }

  class NoticeBoard {
    var notices: seq<Notice>
    var currentView: View
    var selectedNotice: Option<Notice>
    var user: Option<User>
    var searchQuery: string
    var isPolishing: bool
    var loginForm: LoginForm
    var noticeForm: NoticeForm
    /** The browser's local storage, shared by the two keys. */
    var storage: Storage

    /**
     * What holds between any two events: storage keys hold their own kind of
     * value; a non-empty list is what storage holds; the cached session is
     * the live one; the detail screen has a notice to show; the admin and
     * create screens are only ever shown with a session; the category is
     * one of those offered; no polish is in flight (the gateway's answer
     * arrives within the event that asked for it).
     */
    ghost predicate Valid()
      reads this
    {
      WellTyped(storage) &&
      (|notices| > 0 ==> StorageKey in storage && storage[StorageKey] == NoticesJson(notices)) &&
      RestoreSession(storage) == user &&
      (currentView == Detail ==> selectedNotice.Some?) &&
      (currentView == Admin || currentView == Create ==> user.Some?) &&
      noticeForm.category in DefaultCategories &&
      !isPolishing
    }

    /** The home-screen list for the current list and search box. */
    function FilteredNotices(): (r: seq<Notice>)
      reads this
      ensures NewestFirst(r)
      ensures forall n :: n in r <==> n in notices && Matches(n, searchQuery)
    {
      Project(notices, searchQuery)
    }

    /**
     * Mounting: the list is the stored one, or the seed stamped from `now`;
     * the cached session is restored unchecked; then the list is written
     * through.
     */
    constructor Mount(stored: Storage, now: int)
      requires WellTyped(stored)
      ensures Valid()
      ensures notices == (if StorageKey in stored then stored[StorageKey].notices else Seed(now))
      ensures user == (if AuthKey in stored then Some(stored[AuthKey].user) else None)
      ensures storage == Persisted(stored, notices)
      ensures currentView == Home && selectedNotice == None && searchQuery == "" && !isPolishing
      ensures loginForm == BlankLogin && noticeForm == BlankNotice
    {
      notices := LoadNotices(stored, now);
      user := RestoreSession(stored);
      currentView := Home;
      selectedNotice := None;
      searchQuery := "";
      isPolishing := false;
      loginForm := BlankLogin;
      noticeForm := BlankNotice;
      storage := stored;
      new;
      PersistNotices();
    }

    /** The effect run after each change of the list: it writes the list unless it is empty. */
    method PersistNotices()
      requires WellTyped(storage)
      modifies this`storage
      ensures storage == Persisted(old(storage), notices)
      ensures |notices| > 0 ==> storage == old(storage)[StorageKey := NoticesJson(notices)]
      ensures |notices| == 0 ==> storage == old(storage)
    {
      if |notices| > 0 {
        storage := storage[StorageKey := NoticesJson(notices)];
      }
    }

    /** Typing in the search box on the home screen. */
    method Search(q: string)
      requires Valid() && currentView == Home
      modifies this`searchQuery
      ensures Valid() && searchQuery == q
    {
      searchQuery := q;
    }

    /**
     * Signing in: succeeds exactly for admin/admin123, then caches the admin
     * session and opens the admin screen; a failure changes nothing.
     */
    method SubmitLogin() returns (ok: bool)
      requires Valid() && currentView == Login
      modifies this`user, this`storage, this`currentView
      ensures Valid()
      ensures ok <==> loginForm.username == AdminName && loginForm.password == AdminPassword
      ensures ok ==> user == Some(AdminUser) && currentView == Admin &&
                     storage == old(storage)[AuthKey := UserJson(AdminUser)]
      ensures !ok ==> user == old(user) && currentView == old(currentView) && storage == old(storage)
    {
      ok := loginForm.username == AdminName && loginForm.password == AdminPassword;
      if ok {
        KeysDistinct();
        user := Some(AdminUser);
        storage := storage[AuthKey := UserJson(AdminUser)];
        currentView := Admin;
      }
    }

    /**
     * Asking the gateway to rewrite the draft: nothing happens for an empty
     * draft; otherwise only the content becomes the gateway's answer
     * `polished`, and the busy flag is lowered again.
     */
    method Polish(polished: string)
      requires Valid() && currentView == Create
      modifies this`noticeForm, this`isPolishing
      ensures Valid()
      ensures old(noticeForm).content == "" ==> noticeForm == old(noticeForm)
      ensures old(noticeForm).content != "" ==>
                noticeForm.content == polished &&
                noticeForm.title == old(noticeForm).title &&
                noticeForm.category == old(noticeForm).category
      ensures !isPolishing
    {
      if noticeForm.content == "" {
        return;
      }
      isPolishing := true;
      noticeForm := noticeForm.(content := polished);
      isPolishing := false;
    }

    /**
     * Publishing the draft: a notice whose id is the decimal form of the
     * clock read `idClock`, stamped `createdAt` (a second, separate clock
     * read), is put in front of the list and written through; the form is
     * reset and the admin screen shown.
     */
    method SubmitNotice(idClock: nat, createdAt: int)
      requires Valid() && currentView == Create
      requires noticeForm.title != "" && noticeForm.content != ""
      modifies this`notices, this`storage, this`noticeForm, this`currentView
      ensures Valid()
      ensures |notices| == |old(notices)| + 1 && notices[1..] == old(notices)
      ensures notices[0].id == NoticeId(idClock) && notices[0].createdAt == createdAt
      ensures notices[0].title == old(noticeForm).title &&
              notices[0].content == old(noticeForm).content &&
              notices[0].category == old(noticeForm).category
      ensures notices[0].author ==
                if user.Some? && user.value.username != "" then user.value.username else OfficeAuthor
      ensures storage == old(storage)[StorageKey := NoticesJson(notices)]
      ensures forall now :: LoadNotices(storage, now) == notices
      ensures noticeForm == BlankNotice && currentView == Admin
    {
      var author := if user.Some? && user.value.username != "" then user.value.username else OfficeAuthor;
      var newNotice := Notice(NoticeId(idClock), noticeForm.title, noticeForm.content,
                          noticeForm.category, createdAt, author);
      notices := [newNotice] + notices;
      PersistNotices();
      noticeForm := BlankNotice;
      currentView := Admin;
    }

    /**
     * The delete button of a notice on the admin screen: every notice with
     * that id goes, the rest stay in order; the list is written through
     * unless it became empty.
     */
    method Delete(id: string)
      requires Valid() && currentView == Admin
      modifies this`notices, this`storage
      ensures Valid()
      ensures notices == RemoveId(old(notices), id)
      ensures forall n :: n in notices <==> n in old(notices) && n.id != id
      ensures storage == Persisted(old(storage), notices)
    {
      notices := RemoveId(notices, id);
      PersistNotices();
    }

    /** The header logo: back to the home screen from anywhere. */
    method ClickLogo()
      requires Valid()
      modifies this`currentView
      ensures Valid() && currentView == Home
    {
      currentView := Home;
    }

    /** The header's manage button, shown only with a session. */
    method OpenAdmin()
      requires Valid() && user.Some?
      modifies this`currentView
      ensures Valid() && currentView == Admin
    {
      currentView := Admin;
    }

    /** The header's sign-out button, shown only with a session: drop it, uncache it, go home. */
    method Logout()
      requires Valid() && user.Some?
      modifies this`user, this`storage, this`currentView
      ensures Valid()
      ensures user == None && storage == old(storage) - {AuthKey} && currentView == Home
      ensures forall now :: LoadNotices(storage, now) == LoadNotices(old(storage), now)
    {
      KeysDistinct();
      user := None;
      storage := storage - {AuthKey};
      currentView := Home;
    }

    /** The header's sign-in button, shown only without a session. */
    method OpenLogin()
      requires Valid() && user.None?
      modifies this`currentView
      ensures Valid() && currentView == Login
    {
      currentView := Login;
    }

    /** Tapping a card of the home-screen list opens that notice. */
    method SelectNotice(n: Notice)
      requires Valid() && currentView == Home && n in FilteredNotices()
      modifies this`selectedNotice, this`currentView
      ensures Valid() && selectedNotice == Some(n) && currentView == Detail
    {
      selectedNotice := Some(n);
      currentView := Detail;
    }

    /** The detail screen's back button. */
    method BackToList()
      requires Valid() && currentView == Detail
      modifies this`currentView
      ensures Valid() && currentView == Home
    {
      currentView := Home;
    }

    /** Giving up on signing in. */
    method CancelLogin()
      requires Valid() && currentView == Login
      modifies this`currentView
      ensures Valid() && currentView == Home
    {
      currentView := Home;
    }

    /** The admin screen's publish button; it does not check the session again. */
    method Compose()
      requires Valid() && currentView == Admin
      modifies this`currentView
      ensures Valid() && currentView == Create
    {
      currentView := Create;
    }

    /** Leaving the create form without publishing; the draft is kept. */
    method CancelCreate()
      requires Valid() && currentView == Create
      modifies this`currentView
      ensures Valid() && currentView == Admin
    {
      currentView := Admin;
    }

    method EditUsername(s: string)
      requires Valid() && currentView == Login
      modifies this`loginForm
      ensures Valid() && loginForm == old(loginForm).(username := s)
    {
      loginForm := loginForm.(username := s);
    }

    method EditPassword(s: string)
      requires Valid() && currentView == Login
      modifies this`loginForm
      ensures Valid() && loginForm == old(loginForm).(password := s)
    {
      loginForm := loginForm.(password := s);
    }

    method EditTitle(s: string)
      requires Valid() && currentView == Create
      modifies this`noticeForm
      ensures Valid() && noticeForm == old(noticeForm).(title := s)
    {
      noticeForm := noticeForm.(title := s);
    }

    method EditContent(s: string)
      requires Valid() && currentView == Create
      modifies this`noticeForm
      ensures Valid() && noticeForm == old(noticeForm).(content := s)
    {
      noticeForm := noticeForm.(content := s);
    }

    /** The category drop-down offers only the category list. */
    method EditCategory(c: string)
      requires Valid() && currentView == Create && c in DefaultCategories
      modifies this`noticeForm
      ensures Valid() && noticeForm == old(noticeForm).(category := c)
    {
      noticeForm := noticeForm.(category := c);
    }
  }
}
