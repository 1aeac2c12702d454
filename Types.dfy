/** The record shapes of src/types/index.ts and the small wrappers the rest of the model uses. */
module Types {

  /** A mood from the catalog; entries embed a copy of it, not a reference. */
  datatype Emotion = Emotion(id: int, name: string, color: string, icon: string)

  /** One diary record as it is serialized into the entry slot. */
  datatype DiaryEntry = DiaryEntry(
    id: string,
    date: string,
    emotion: Emotion,
    content: string,
    createdAt: string,
    updatedAt: string)

  /** `T | null` and `T | undefined`. */
  datatype Option<+T> = None | Some(value: T)

  /** The error a rejected `AsyncStorage.setItem` propagates to the caller. */
  datatype StorageError = StorageWriteError

  /** Completion of an asynchronous store write: resolved, or rejected with an error. */
  datatype Outcome = Pass | Fail(error: StorageError)
}
