/**
 * The relational store behind the API routes, as an object whose tables are
 * sequences of rows. Each method is one Prisma call the routes issue
 * (`create`, `update`, `updateMany`); the pure functions beside the class
 * give the table each update produces, so that the routes and the lemmas
 * can speak about it.
 */
module Db {
  import opened Basics
  import opened Domain

  // ---------------------------------------------------------------------
  // keys and uniqueness
  // ---------------------------------------------------------------------

  function UserKey(u: User): Id { u.id }
  function UserEmail(u: User): string { u.email }
  function TaskKey(t: Task): Id { t.id }
  function EvidenceKey(e: Evidence): Id { e.id }
  function CommentKey(c: TaskComment): Id { c.id }
  function MessageKey(m: Message): Id { m.id }
  function NotificationKey(n: Notification): Id { n.id }

  /** No two rows of `s` share a key (a primary key or a unique column). */
  ghost predicate Distinct<T>(s: seq<T>, key: T -> string) {
    forall i, j :: 0 <= i < j < |s| ==> key(s[i]) != key(s[j])
  }

  /** No row of `s` has key `k`. */
  predicate Unused<T>(s: seq<T>, key: T -> string, k: string) {
    forall i :: 0 <= i < |s| ==> key(s[i]) != k
  }

  lemma DistinctAppend<T>(s: seq<T>, key: T -> string, x: T)
    requires Distinct(s, key) && Unused(s, key, key(x))
    ensures Distinct(s + [x], key)
  {
  }

  // ---------------------------------------------------------------------
  // the tables produced by the updates
  // ---------------------------------------------------------------------

  /**
   * `db.task.update({ where: { id }, data: { status } })`; the schema's
   * `@updatedAt` column takes the time of the write.
   */
  function WithStatus(ts: seq<Task>, id: Id, status: Status, now: Time): (r: seq<Task>)
    ensures |r| == |ts|
    ensures forall i :: 0 <= i < |ts| && ts[i].id != id ==> r[i] == ts[i]
    ensures forall i :: 0 <= i < |ts| && ts[i].id == id ==> r[i] == ts[i].(status := status, updatedAt := now)
  {
    seq(|ts|, i requires 0 <= i < |ts| =>
      if ts[i].id == id then ts[i].(status := status, updatedAt := now) else ts[i])
  }

  /** `db.notification.update({ where: { id }, data: { read } })`. */
  function WithRead(ns: seq<Notification>, id: Id, read: bool): (r: seq<Notification>)
    ensures |r| == |ns|
    ensures forall i :: 0 <= i < |ns| && ns[i].id != id ==> r[i] == ns[i]
    ensures forall i :: 0 <= i < |ns| && ns[i].id == id ==> r[i] == ns[i].(read := read)
  {
    seq(|ns|, i requires 0 <= i < |ns| => if ns[i].id == id then ns[i].(read := read) else ns[i])
  }

  /** The rows `updateMany` touches when a conversation is opened. */
  predicate UnreadFromTo(m: Message, senderId: Id, receiverId: Id) {
    m.senderId == senderId && m.receiverId == receiverId && !m.read
  }

  /**
   * `db.message.updateMany({ where: { senderId, receiverId, read: false },
   * data: { read: true } })`.
   */
  function MarkRead(ms: seq<Message>, senderId: Id, receiverId: Id): (r: seq<Message>)
    ensures |r| == |ms|
    ensures forall i :: 0 <= i < |ms| && !UnreadFromTo(ms[i], senderId, receiverId) ==> r[i] == ms[i]
    ensures forall i :: 0 <= i < |ms| && UnreadFromTo(ms[i], senderId, receiverId) ==> r[i] == ms[i].(read := true)
  {
    seq(|ms|, i requires 0 <= i < |ms| =>
      if UnreadFromTo(ms[i], senderId, receiverId) then ms[i].(read := true) else ms[i])
  }

  /** `db.user.update({ where: { id }, data: { name, email, password } })`. */
  function WithProfile(us: seq<User>, id: Id, name: string, email: string, password: string): (r: seq<User>)
    ensures |r| == |us|
    ensures forall i :: 0 <= i < |us| && us[i].id != id ==> r[i] == us[i]
    ensures forall i :: 0 <= i < |us| && us[i].id == id ==>
      r[i] == us[i].(name := name, email := email, password := password)
  {
    seq(|us|, i requires 0 <= i < |us| =>
      if us[i].id == id then us[i].(name := name, email := email, password := password) else us[i])
  }

  class Store {
    var users: seq<User>
    var tasks: seq<Task>
    var evidence: seq<Evidence>
    var comments: seq<TaskComment>
    var messages: seq<Message>
    var notifications: seq<Notification>

    /** Primary keys are unique in every table, and so are e-mail addresses. */
    ghost predicate Valid()
      reads this
    {
      && Distinct(users, UserKey)
      && Distinct(users, UserEmail)
      && Distinct(tasks, TaskKey)
      && Distinct(evidence, EvidenceKey)
      && Distinct(comments, CommentKey)
      && Distinct(messages, MessageKey)
      && Distinct(notifications, NotificationKey)
    }

    constructor ()
      ensures Valid()
      ensures users == [] && tasks == [] && evidence == []
      ensures comments == [] && messages == [] && notifications == []
    {
      users, tasks, evidence := [], [], [];
      comments, messages, notifications := [], [], [];
    }

    method CreateUser(u: User)
      requires Valid() && Unused(users, UserKey, u.id) && Unused(users, UserEmail, u.email)
      modifies this`users
      ensures Valid() && users == old(users) + [u]
    {
      DistinctAppend(users, UserKey, u);
      DistinctAppend(users, UserEmail, u);
      users := users + [u];
    }

    method CreateTask(t: Task)
      requires Valid() && Unused(tasks, TaskKey, t.id)
      modifies this`tasks
      ensures Valid() && tasks == old(tasks) + [t]
    {
      DistinctAppend(tasks, TaskKey, t);
      tasks := tasks + [t];
    }

    method CreateEvidence(e: Evidence)
      requires Valid() && Unused(evidence, EvidenceKey, e.id)
      modifies this`evidence
      ensures Valid() && evidence == old(evidence) + [e]
    {
      DistinctAppend(evidence, EvidenceKey, e);
      evidence := evidence + [e];
    }

    method CreateComment(c: TaskComment)
      requires Valid() && Unused(comments, CommentKey, c.id)
      modifies this`comments
      ensures Valid() && comments == old(comments) + [c]
    {
      DistinctAppend(comments, CommentKey, c);
      comments := comments + [c];
    }

    method CreateMessage(m: Message)
      requires Valid() && Unused(messages, MessageKey, m.id)
      modifies this`messages
      ensures Valid() && messages == old(messages) + [m]
    {
      DistinctAppend(messages, MessageKey, m);
      messages := messages + [m];
    }

    method CreateNotification(n: Notification)
      requires Valid() && Unused(notifications, NotificationKey, n.id)
      modifies this`notifications
      ensures Valid() && notifications == old(notifications) + [n]
    {
      DistinctAppend(notifications, NotificationKey, n);
      notifications := notifications + [n];
    }

    method UpdateTaskStatus(id: Id, status: Status, now: Time)
      requires Valid()
      modifies this`tasks
      ensures Valid() && tasks == WithStatus(old(tasks), id, status, now)
    {
      tasks := WithStatus(tasks, id, status, now);
    }

    method UpdateNotificationRead(id: Id, read: bool)
      requires Valid()
      modifies this`notifications
      ensures Valid() && notifications == WithRead(old(notifications), id, read)
    {
      notifications := WithRead(notifications, id, read);
    }

    method MarkMessagesRead(senderId: Id, receiverId: Id)
      requires Valid()
      modifies this`messages
      ensures Valid() && messages == MarkRead(old(messages), senderId, receiverId)
    {
      messages := MarkRead(messages, senderId, receiverId);
    }

    /** The e-mail column is unique, so `email` may belong to no other row. */
    method UpdateUser(id: Id, name: string, email: string, password: string)
      requires Valid()
      requires forall i :: 0 <= i < |users| && users[i].id != id ==> users[i].email != email
      modifies this`users
      ensures Valid() && users == WithProfile(old(users), id, name, email, password)
    {
      users := WithProfile(users, id, name, email, password);
    }
  }
}
