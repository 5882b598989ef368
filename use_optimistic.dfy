/**
 * The useOptimistic demo: a todo list and a chat whose new entries are shown at once and saved
 * later, and a like button whose count moves before the server answers. The updaters handed to
 * `useOptimistic` and the predicates that decide what is shown are modelled; the hook itself
 * keeps the optimistic list as a field that the submit handler extends and that falls back to
 * the confirmed list once the simulated API call has returned. `Date.now()` ids are parameters.
 */
module UseOptimistic {
  import opened Wrappers
  import opened JsString

  datatype Todo = Todo(id: int, text: string, completed: bool)

  /** `sending` is an optional field: `Some(true)` on a temporary message, absent on a sent one. */
  datatype Message = Message(id: int, text: string, sending: Option<bool>)

  /** The updater `(state, newItem) => [...state, newItem]` of both lists. */
  function Append<T>(state: seq<T>, item: T): (r: seq<T>)
    ensures |r| == |state| + 1
    ensures r[..|state|] == state && r[|state|] == item
  {
    state + [item]
  }

  /** The like updater `(state, amount) => state + amount`. */
  function AddAmount(state: int, amount: int): (r: int)
    ensures r - state == amount
  {
    state + amount
  }

  /** `!input.trim()`: the submit handlers return early on blank input. */
  predicate Blank(input: string) {
    Trim(input) == ""
  }

  lemma BlankIff(input: string)
    ensures Blank(input) <==> forall i :: 0 <= i < |input| ==> IsWhitespace(input[i])
  {
    TrimEmptyIff(input);
  }

  /** `todos.find((t) => t.id === todo.id)` */
  function FindById(todos: seq<Todo>, id: int): (r: Option<Todo>)
    ensures r.Some? ==> r.value in todos && r.value.id == id
    ensures r.None? <==> forall t :: t in todos ==> t.id != id
  {
    if todos == [] then None
    else if todos[0].id == id then Some(todos[0])
    else
      var r := FindById(todos[1..], id);
      assert forall t :: t in todos ==> t == todos[0] || t in todos[1..];
      r
  }

  /** The "Saving..." badge of a displayed todo: no confirmed todo has its id. */
  predicate Pending(todos: seq<Todo>, todo: Todo): (b: bool)
    ensures b <==> forall t :: t in todos ==> t.id != todo.id
  {
    FindById(todos, todo.id).None?
  }

  /** A confirmed todo never shows the badge. */
  lemma ConfirmedNotPending(todos: seq<Todo>, todo: Todo)
    requires todo in todos
    ensures !Pending(todos, todo)
  {
  }

  /** The todo list: confirmed todos, the text field and the list on screen. */
  class TodoList {
    var todos: seq<Todo>
    var input: string
    var shown: seq<Todo>
    /** The text of the submission whose API call has not returned yet. */
    var saving: Option<string>

    constructor()
      ensures todos == [Todo(1, "Learn React 19", true), Todo(2, "Build awesome apps", false)]
      ensures input == "" && shown == todos && saving.None?
    {
      todos := [Todo(1, "Learn React 19", true), Todo(2, "Build awesome apps", false)];
      input := "";
      shown := todos;
      saving := None;
    }

    /** The input's `onChange`. */
    method Type(text: string)
      modifies this
      ensures input == text
      ensures todos == old(todos) && shown == old(shown) && saving == old(saving)
    {
      input := text;
    }

    /**
     * `handleSubmit` up to the API call: blank input changes nothing; otherwise a temporary
     * todo with id `now` is shown at the end of the list and the input is cleared.
     */
    method HandleSubmit(now: int) returns (accepted: bool)
      modifies this
      ensures accepted <==> !Blank(old(input))
      ensures !accepted ==> input == old(input) && shown == old(shown) && saving == old(saving)
      ensures accepted ==> shown == Append(old(shown), Todo(now, old(input), false))
      ensures accepted ==> input == "" && saving == Some(old(input))
      ensures todos == old(todos)
    {
      if Blank(input) {
        return false;
      }
      var tempTodo := Todo(now, input, false);
      shown := Append(shown, tempTodo);
      saving := Some(input);
      input := "";
      accepted := true;
    }

    /** `setTodos([...todos, newTodo])` once `addTodoAPI` returns the todo with id `id`. */
    method TodoSaved(id: int)
      requires saving.Some?
      modifies this
      ensures todos == Append(old(todos), Todo(id, old(saving).value, false))
      ensures shown == todos && saving.None? && input == old(input)
    {
      todos := Append(todos, Todo(id, saving.value, false));
      shown := todos;
      saving := None;
    }
  }

  /** Right after a submit the new todo is the last one shown, and it is pending unless its id is taken. */
  lemma NewTodoPending(todos: seq<Todo>, shown: seq<Todo>, now: int, text: string)
    requires forall t :: t in todos ==> t.id != now
    ensures Append(shown, Todo(now, text, false))[|shown|] == Todo(now, text, false)
    ensures Pending(todos, Todo(now, text, false))
  {
  }

  /** One like press: `change = isLiked ? -1 : 1`, then count and flag move together. */
  function Like(likes: int, isLiked: bool): (r: (int, bool))
    ensures r.1 == !isLiked
    ensures r.0 == if isLiked then likes - 1 else likes + 1
  {
    var change := if isLiked then -1 else 1;
    (AddAmount(likes, change), !isLiked)
  }

  /** Like then unlike (or the reverse) gives back the starting count and flag. */
  lemma LikeTwice(likes: int, isLiked: bool)
    ensures Like(Like(likes, isLiked).0, Like(likes, isLiked).1) == (likes, isLiked)
  {
  }

  /** The like button, starting at 42 likes, not liked. */
  class LikeButton {
    var likes: int
    var isLiked: bool

    /** The count is 42 plus one while the post is liked. */
    predicate Valid()
      reads this
    {
      likes == 42 + (if isLiked then 1 else 0)
    }

    constructor()
      ensures likes == 42 && !isLiked && Valid()
    {
      likes := 42;
      isLiked := false;
    }

    /** `handleLike` once the delay has passed. */
    method HandleLike()
      requires Valid()
      modifies this
      ensures (likes, isLiked) == Like(old(likes), old(isLiked))
      ensures Valid()
    {
      var change := if isLiked then -1 else 1;
      isLiked := !isLiked;
      likes := AddAmount(likes, change);
    }
  }

  /** The chat: confirmed messages, the text field and the list on screen. */
  class MessageList {
    var messages: seq<Message>
    var input: string
    var shown: seq<Message>
    var sending: Option<string>

    /** Confirmed messages never carry the `sending` flag. */
    predicate Valid()
      reads this
    {
      forall i :: 0 <= i < |messages| ==> messages[i].sending.None?
    }

    constructor()
      ensures messages == [Message(1, "Hello! How are you?", None), Message(2, "I'm learning React 19!", None)]
      ensures input == "" && shown == messages && sending.None? && Valid()
    {
      messages := [Message(1, "Hello! How are you?", None), Message(2, "I'm learning React 19!", None)];
      input := "";
      shown := messages;
      sending := None;
    }

    method Type(text: string)
      modifies this
      ensures input == text
      ensures messages == old(messages) && shown == old(shown) && sending == old(sending)
    {
      input := text;
    }

    /** `handleSend` up to the API call: the temporary message is flagged as sending. */
    method HandleSend(now: int) returns (accepted: bool)
      requires Valid()
      modifies this
      ensures accepted <==> !Blank(old(input))
      ensures !accepted ==> input == old(input) && shown == old(shown) && sending == old(sending)
      ensures accepted ==> shown == Append(old(shown), Message(now, old(input), Some(true)))
      ensures accepted ==> input == "" && sending == Some(old(input))
      ensures messages == old(messages) && Valid()
    {
      if Blank(input) {
        return false;
      }
      var tempMessage := Message(now, input, Some(true));
      shown := Append(shown, tempMessage);
      sending := Some(input);
      input := "";
      accepted := true;
    }

    /** `setMessages([...messages, sentMessage])`: the message from the API has no `sending` flag. */
    method MessageSent(id: int)
      requires sending.Some? && Valid()
      modifies this
      ensures messages == Append(old(messages), Message(id, old(sending).value, None))
      ensures shown == messages && sending.None? && input == old(input)
      ensures Valid()
    {
      messages := Append(messages, Message(id, sending.value, None));
      shown := messages;
      sending := None;
    }
  }
}
