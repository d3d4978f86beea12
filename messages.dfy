/** Rows of the three message tables and the objects the client inserts into them. */
module Messages {
  import opened Common

  /** A `chat_messages` row (public chat and system announcements); `created_at` is in
      milliseconds. `senderEmail` is `None` when the sender's `user.email` is undefined. */
  datatype ChatMessage = ChatMessage(senderEmail: Option<string>, senderId: UserId, content: string,
                                     kind: string, createdAt: int)

  /** A `room_messages` row. */
  datatype RoomMessage = RoomMessage(roomId: RowId, senderId: UserId, senderEmail: Option<string>,
                                     content: string, kind: string, createdAt: int)

  /** A `private_messages` row. */
  datatype PrivateMessage = PrivateMessage(senderId: UserId, receiverId: UserId, content: string,
                                           createdAt: int, isRead: bool)

  /** The object the client passes to `insert` on `private_messages`: the store fills in
      `is_read`. */
  datatype PrivateDraft = PrivateDraft(senderId: UserId, receiverId: UserId, content: string, createdAt: int)
}
