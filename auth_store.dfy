/**
 * The client session store of frontend/src/store/useAuthStore.js. Each
 * action is a method; what the server answered is a parameter, so the
 * model states exactly what every answer does to the store. The store's
 * socket is a value recording the `userId` its handshake query carried,
 * socket.io's `active` flag (the socket keeps trying to connect until it
 * is destroyed, by `disconnect()` or by the server) and its `connected`
 * flag, which turns true only when the server accepts a handshake, an
 * event of its own.
 */
module Session {
  import opened Wrappers

  type UserId = string

  /**
   * The user object the server sends. Replies that carry no `isVerified`
   * field (login, update-profile) have `isVerified` false here.
   */
  datatype AuthUser = AuthUser(id: UserId, fullName: string, email: string,
                               profilePic: Option<string>, isVerified: bool)

  /**
   * A socket.io client socket: which of the store's sockets it is, its
   * handshake `userId`, `socket.active` and `socket.connected`.
   */
  datatype Socket = Socket(serial: nat, userId: UserId, active: bool, connected: bool)

  /** How a request ended: with the reply's data, or by throwing. */
  datatype Outcome<T> = Success(data: T) | Failure

  /** What the store's `signup` action returns. */
  datatype SignupResult = SignupResult(success: bool)

  /** A snapshot of every field of the store, plus the cookie jar's `jwt` entry. */
  datatype StoreView = StoreView(
    authUser: Option<AuthUser>,
    isSigningUp: bool,
    isLoggingIn: bool,
    isUpdatingProfile: bool,
    isCheckingAuth: bool,
    onlineUsers: seq<UserId>,
    socket: Option<Socket>,
    socketsOpened: nat,
    cookie: Option<string>)

  /** `socket?.connected`. */
  predicate IsConnected(s: Option<Socket>) {
    s.Some? && s.value.connected
  }

  /** `if (token)`: the cookie is present and not empty. */
  predicate HasToken(cookie: Option<string>) {
    cookie.Some? && cookie.value != ""
  }

  /**
   * The effect of `connectSocket` on the store. With no user, or with a
   * connected socket, nothing changes; otherwise exactly one new socket is
   * opened, active, not yet connected, whose handshake carries the user's
   * id. No field but the socket and the counter ever changes.
   */
  function Connect(v: StoreView): (w: StoreView)
    ensures w == v <==> v.authUser.None? || IsConnected(v.socket)
    ensures w != v ==> w.socket == Some(Socket(v.socketsOpened, v.authUser.value.id, true, false))
    ensures w != v ==> w.socketsOpened == v.socketsOpened + 1
    ensures w.(socket := v.socket, socketsOpened := v.socketsOpened) == v
  {
    if v.authUser.None? || IsConnected(v.socket) then v
    else v.(socket := Some(Socket(v.socketsOpened, v.authUser.value.id, true, false)),
            socketsOpened := v.socketsOpened + 1)
  }

  /**
   * The effect of `disconnectSocket` on the store. Afterwards no socket is
   * connected. A connected socket is closed for good (`active` false), and
   * stays in the store; a socket still waiting for its handshake is left
   * alone and may yet connect. No other field changes.
   */
  function Disconnect(v: StoreView): (w: StoreView)
    ensures !IsConnected(w.socket)
    ensures w == v <==> !IsConnected(v.socket)
    ensures IsConnected(v.socket) ==> w.socket.Some? && !w.socket.value.active
    ensures IsConnected(v.socket) ==> w.socket.value.serial == v.socket.value.serial && w.socket.value.userId == v.socket.value.userId
    ensures w.(socket := v.socket) == v
  {
    if IsConnected(v.socket) then v.(socket := Some(v.socket.value.(active := false, connected := false))) else v
  }

  /**
   * Two calls before the server accepts the first handshake open two
   * sockets: the guard looks at `connected`, not at whether a socket exists.
   */
  lemma ConnectTwiceBeforeHandshake(v: StoreView)
    requires v.authUser.Some? && !IsConnected(v.socket)
    ensures Connect(Connect(v)).socketsOpened == v.socketsOpened + 2
    ensures Connect(Connect(v)).socket.value.userId == v.authUser.value.id
  {
  }

  /** Disconnecting and then connecting with a user opens a fresh socket for that user. */
  lemma ReconnectAfterDisconnect(v: StoreView)
    requires v.authUser.Some?
    ensures Connect(Disconnect(v)).socket == Some(Socket(v.socketsOpened, v.authUser.value.id, true, false))
  {
  }

  class AuthStore {
    var authUser: Option<AuthUser>
    var isSigningUp: bool
    var isLoggingIn: bool
    var isUpdatingProfile: bool
    var isCheckingAuth: bool
    var onlineUsers: seq<UserId>
    var socket: Option<Socket>
    /** How many sockets `io(...)` has created for this store. */
    var socketsOpened: nat
    /** The `jwt` entry of the cookie jar, as js-cookie reads it. */
    var cookie: Option<string>

    function View(): StoreView
      reads this
    {
      StoreView(authUser, isSigningUp, isLoggingIn, isUpdatingProfile, isCheckingAuth,
                onlineUsers, socket, socketsOpened, cookie)
    }

    /** The store's initial state, on a page whose cookie jar holds `jwt`. */
    constructor (jwt: Option<string>)
      ensures View() == StoreView(None, false, false, false, true, [], None, 0, jwt)
    {
      authUser := None;
      isSigningUp := false;
      isLoggingIn := false;
      isUpdatingProfile := false;
      isCheckingAuth := true;
      onlineUsers := [];
      socket := None;
      socketsOpened := 0;
      cookie := jwt;
    }

    /** `connectSocket`. */
    method ConnectSocket()
      modifies this
      ensures View() == Connect(old(View()))
    {
      if authUser.None? || IsConnected(socket) {
        return;
      }
      socket := Some(Socket(socketsOpened, authUser.value.id, true, false));
      socketsOpened := socketsOpened + 1;
    }

    /** `disconnectSocket`: calls `disconnect()` only on a connected socket, which stays in the store. */
    method DisconnectSocket()
      modifies this
      ensures View() == Disconnect(old(View()))
    {
      if IsConnected(socket) {
        socket := Some(socket.value.(active := false, connected := false));
      }
    }

    /**
     * socket.io's `connect` event: the server accepted a handshake of the
     * current socket. Only an active socket tries to connect; one closed by
     * `disconnect()` never connects again.
     */
    method HandshakeAccepted()
      modifies this
      ensures old(socket).Some? && old(socket).value.active ==>
        View() == old(View()).(socket := Some(old(socket).value.(connected := true)))
      ensures old(socket).None? || !old(socket).value.active ==> View() == old(View())
    {
      if socket.Some? && socket.value.active {
        socket := Some(socket.value.(connected := true));
      }
    }

    /**
     * The transport is lost or the server stops answering pings, without
     * `disconnect()` being called on either side: the socket stays active,
     * so socket.io reconnects it and a later `connect` event may follow.
     */
    method ConnectionLost()
      modifies this
      ensures IsConnected(old(socket)) ==>
        View() == old(View()).(socket := Some(old(socket).value.(connected := false)))
      ensures !IsConnected(old(socket)) ==> View() == old(View())
      ensures !IsConnected(socket)
    {
      if IsConnected(socket) {
        socket := Some(socket.value.(connected := false));
      }
    }

    /**
     * The server ends the socket: it disconnects a connected socket, or
     * refuses a pending one's handshake with a `connect_error`. Either way
     * socket.io destroys the socket, which is never reconnected.
     */
    method ServerClosed()
      modifies this
      ensures old(socket).Some? ==>
        View() == old(View()).(socket := Some(old(socket).value.(active := false, connected := false)))
      ensures old(socket).None? ==> View() == old(View())
      ensures socket.Some? ==> !socket.value.active && !IsConnected(socket)
    {
      if socket.Some? {
        socket := Some(socket.value.(active := false, connected := false));
      }
    }

    /** The `getOnlineUsers` handler: the broadcast list replaces the online list wholesale. */
    method OnGetOnlineUsers(userIds: seq<UserId>)
      requires socketsOpened > 0
      modifies this
      ensures View() == old(View()).(onlineUsers := userIds)
    {
      onlineUsers := userIds;
    }

    /**
     * `initializeAuth`. `decodes` says whether decoding the cookie's payload
     * segment and reading its `userId` (useAuthStore.js:24-25) do not throw;
     * `check` is the answer to
     * GET /auth/check. Unverified users and failures clear the cookie.
     */
    method InitializeAuth(decodes: bool, check: Outcome<AuthUser>)
      modifies this
      ensures !isCheckingAuth
      ensures !HasToken(old(cookie)) ==> View() == old(View()).(authUser := None, isCheckingAuth := false)
      ensures HasToken(old(cookie)) && decodes && check.Success? && check.data.isVerified ==>
        View() == Connect(old(View()).(authUser := Some(check.data), isCheckingAuth := false))
      ensures HasToken(old(cookie)) && (!decodes || check.Failure? || !check.data.isVerified) ==>
        View() == old(View()).(authUser := None, cookie := None, isCheckingAuth := false)
      ensures authUser.Some? ==> check.Success? && authUser == Some(check.data) && check.data.isVerified
    {
      if !HasToken(cookie) {
        authUser := None;
        isCheckingAuth := false;
        return;
      }
      if !decodes {
        cookie := None;
        authUser := None;
      } else {
        isCheckingAuth := true;
        match check {
          case Failure =>
            cookie := None;
            authUser := None;
          case Success(user) =>
            if user.isVerified {
              authUser := Some(user);
              ConnectSocket();
            } else {
              cookie := None;
              authUser := None;
            }
        }
      }
      isCheckingAuth := false;
    }

    /** `checkAuth`: keeps only a verified user; the cookie and any socket are left alone. */
    method CheckAuth(check: Outcome<AuthUser>)
      modifies this
      ensures !isCheckingAuth
      ensures check.Success? && check.data.isVerified ==>
        View() == Connect(old(View()).(authUser := Some(check.data), isCheckingAuth := false))
      ensures check.Failure? || !check.data.isVerified ==>
        View() == old(View()).(authUser := None, isCheckingAuth := false)
    {
      match check {
        case Failure =>
          authUser := None;
        case Success(user) =>
          if user.isVerified {
            authUser := Some(user);
            ConnectSocket();
          } else {
            authUser := None;
          }
      }
      isCheckingAuth := false;
    }

    /** `signup`: reports the outcome and never signs the user in. */
    method Signup(ok: bool) returns (r: SignupResult)
      modifies this
      ensures r.success == ok
      ensures View() == old(View()).(isSigningUp := false)
    {
      isSigningUp := true;
      r := SignupResult(ok);
      isSigningUp := false;
    }

    /** `login`: the reply becomes the user and a socket is opened for it. */
    method Login(res: Outcome<AuthUser>)
      modifies this
      ensures !isLoggingIn
      ensures res.Success? ==> View() == Connect(old(View()).(authUser := Some(res.data), isLoggingIn := false))
      ensures res.Failure? ==> View() == old(View()).(isLoggingIn := false)
    {
      isLoggingIn := true;
      if res.Success? {
        authUser := Some(res.data);
        ConnectSocket();
      }
      isLoggingIn := false;
    }

    /** `logout`: on success the user is dropped, then the socket is disconnected. */
    method Logout(ok: bool)
      modifies this
      ensures ok ==> View() == Disconnect(old(View()).(authUser := None))
      ensures ok ==> authUser.None? && !IsConnected(socket)
      ensures !ok ==> View() == old(View())
    {
      if ok {
        authUser := None;
        DisconnectSocket();
      }
    }

    /** `updateProfile`: the reply replaces the user; no verification check and no socket. */
    method UpdateProfile(res: Outcome<AuthUser>)
      modifies this
      ensures !isUpdatingProfile
      ensures res.Success? ==> View() == old(View()).(authUser := Some(res.data), isUpdatingProfile := false)
      ensures res.Failure? ==> View() == old(View()).(isUpdatingProfile := false)
    {
      isUpdatingProfile := true;
      if res.Success? {
        authUser := Some(res.data);
      }
      isUpdatingProfile := false;
    }
  }

  /**
   * After a login whose socket the server accepted, a failing `checkAuth`
   * drops the user but leaves the socket connected: only `logout`
   * disconnects.
   */
  method CheckAuthFailureKeepsSocket(u: AuthUser)
  {
    var store := new AuthStore(None);
    store.Login(Success(u));
    store.HandshakeAccepted();
    store.CheckAuth(Failure);
    assert store.authUser.None? && IsConnected(store.socket);
    assert store.socket.value.userId == u.id;
  }

  /** After `logout`, the online list still holds the last broadcast. */
  method LogoutKeepsOnlineList(u: AuthUser, online: seq<UserId>)
  {
    var store := new AuthStore(None);
    store.Login(Success(u));
    store.HandshakeAccepted();
    store.OnGetOnlineUsers(online);
    store.Logout(true);
    assert store.onlineUsers == online && store.socket.Some? && !IsConnected(store.socket);
  }

  /**
   * A socket closed by `logout` stays closed: a later `connect` event
   * changes nothing, so the logged-out store holds no connected socket.
   */
  method LogoutClosesForGood(u: AuthUser)
  {
    var store := new AuthStore(None);
    store.Login(Success(u));
    store.HandshakeAccepted();
    store.Logout(true);
    store.HandshakeAccepted();
    assert store.authUser.None? && !IsConnected(store.socket);
  }

  /**
   * A connection the server dropped comes back on the same socket: the
   * store still holds socket 0, connected again, with no new socket opened.
   */
  method DroppedConnectionReconnects(u: AuthUser)
  {
    var store := new AuthStore(None);
    store.Login(Success(u));
    store.HandshakeAccepted();
    store.ConnectionLost();
    store.HandshakeAccepted();
    assert IsConnected(store.socket) && store.socket.value.serial == 0 && store.socketsOpened == 1;
  }

  /**
   * A socket the server ended stays closed, but the user is still set, so
   * the next `connectSocket` opens a fresh socket for the same user.
   */
  method ServerClosedNeedsNewSocket(u: AuthUser)
  {
    var store := new AuthStore(None);
    store.Login(Success(u));
    store.HandshakeAccepted();
    store.ServerClosed();
    store.HandshakeAccepted();
    assert !IsConnected(store.socket) && store.authUser == Some(u);
    store.ConnectSocket();
    assert store.socket.value.serial == 1 && store.socket.value.userId == u.id;
  }
}
